/**
 * `YangParser.validateSyntax`: a second pass over the lines that counts
 * braces character by character, notes whether any line declares the module
 * and warns about semicolons that do not end their line.
 *
 * The printed warnings become the returned sequence of physical line numbers
 * and the two `IOException`s become `SyntaxError` values. `Validate`,
 * `Balance` and `Warnings` say what the loop computes; `ValidateSyntax` is the
 * loop itself, proved to compute them.
 */
module SyntaxCheck {
  import opened Wrappers
  import opened JavaText
  import opened YangPatterns
  import opened YangParser

  /** The two exceptions `validateSyntax` throws, in the order it checks them. */
  datatype SyntaxError = NoModuleDeclaration | UnbalancedBraces

  /** The message each exception carries. */
  function Message(e: SyntaxError): (s: string)
    ensures s != []
    ensures e == NoModuleDeclaration ==> StartsWith(s, "No module")
    ensures e == UnbalancedBraces ==> StartsWith(s, "Unbalanced braces")
  {
    match e
    case NoModuleDeclaration => "No module declaration found in the file"
    case UnbalancedBraces => "Unbalanced braces in YANG file"
  }

  /** Opening braces minus closing braces in `s`, read from left to right. */
  function BraceDelta(s: string): int
    decreases |s|
  {
    if s == [] then 0
    else BraceDelta(s[..|s| - 1]) + (if s[|s| - 1] == '{' then 1 else if s[|s| - 1] == '}' then -1 else 0)
  }

  /** Brace counting agrees with counting each kind of brace separately. */
  lemma {:induction false} BraceDeltaIsCountDifference(s: string)
    ensures BraceDelta(s) == multiset(s)['{'] as int - multiset(s)['}'] as int
    decreases |s|
  {
    if s != [] {
      var init := s[..|s| - 1];
      assert s == init + [s[|s| - 1]];
      assert multiset(s) == multiset(init) + multiset{s[|s| - 1]};
      BraceDeltaIsCountDifference(init);
    }
  }

  /**
   * A physical line as the loop of `validateSyntax` reads it: its trimmed
   * text, whether it is skipped, and whether the module pattern finds a
   * module declaration on it.
   */
  datatype ScannedLine = ScannedLine(text: string, skipped: bool, declaresModule: bool)

  /** Trims a physical line and tries the module pattern on it. */
  function Scan(raw: string): (l: ScannedLine)
    ensures l.text == Trim(raw)
    ensures l.skipped <==> Skipped(Trim(raw))
    ensures l.declaresModule <==> IsModuleLine(raw)
  {
    var line := Trim(raw);
    ScannedLine(line, Skipped(line), !Skipped(line) && MatchModule(line).Some?)
  }

  /** The lines of a file, each read by `Scan`. */
  function ScanAll(lines: seq<string>): (ls: seq<ScannedLine>)
    ensures |ls| == |lines|
    ensures forall i {:trigger Scan(lines[i])} :: 0 <= i < |lines| ==> ls[i] == Scan(lines[i])
  {
    seq(|lines|, i requires 0 <= i < |lines| => Scan(lines[i]))
  }

  /** The change a line makes to the brace count: none when it is skipped. */
  function LineDelta(l: ScannedLine): int
  {
    if l.skipped then 0 else BraceDelta(l.text)
  }

  /** The brace count after the given lines. */
  function Balance(ls: seq<ScannedLine>): int
    decreases |ls|
  {
    if ls == [] then 0
    else Balance(ls[..|ls| - 1]) + LineDelta(ls[|ls| - 1])
  }

  /** The count of a file is the sum of the counts of its parts. */
  lemma {:induction false} BalanceAppend(a: seq<ScannedLine>, b: seq<ScannedLine>)
    ensures Balance(a + b) == Balance(a) + Balance(b)
    decreases |b|
  {
    if b == [] {
      assert a + b == a;
    } else {
      var b' := b[..|b| - 1];
      assert (a + b)[..|a + b| - 1] == a + b';
      BalanceAppend(a, b');
    }
  }

  /**
   * A semicolon that is not at the end of the line. The second `endsWith`
   * test of `validateSyntax` (for `";;"`) can never decide anything, since a
   * line ending in `";;"` already ends in `";"`.
   */
  predicate Misplaced(line: string)
  {
    ';' in line && !EndsWith(line, ";") && !EndsWith(line, ";;")
  }

  /** The `";;"` test is redundant: the warning depends on the last character only. */
  lemma MisplacedIff(line: string)
    ensures Misplaced(line) <==> ';' in line && (line == [] || line[|line| - 1] != ';')
  {
    if EndsWith(line, ";;") {
      assert line[|line| - 1] == line[|line| - 2..][1];
    }
  }

  /** A line that draws the semicolon warning. */
  predicate Warned(l: ScannedLine)
  {
    !l.skipped && Misplaced(l.text)
  }

  /** The 1-based line numbers of the warnings printed for the given lines, in order. */
  function Warnings(ls: seq<ScannedLine>): seq<nat>
    decreases |ls|
  {
    if ls == [] then []
    else Warnings(ls[..|ls| - 1]) + (if Warned(ls[|ls| - 1]) then [|ls|] else [])
  }

  /** The reported line numbers are valid line numbers, in strictly increasing order. */
  lemma {:induction false} WarningsIncreasing(ls: seq<ScannedLine>)
    ensures forall k :: 0 <= k < |Warnings(ls)| ==> 1 <= Warnings(ls)[k] <= |ls|
    ensures forall k, l :: 0 <= k < l < |Warnings(ls)| ==> Warnings(ls)[k] < Warnings(ls)[l]
    decreases |ls|
  {
    if ls != [] {
      WarningsIncreasing(ls[..|ls| - 1]);
    }
  }

  /** A line number is reported exactly when its line draws the warning. */
  lemma {:induction false} WarningsExactly(ls: seq<ScannedLine>, n: nat)
    ensures n in Warnings(ls) <==> 1 <= n <= |ls| && Warned(ls[n - 1])
    decreases |ls|
  {
    if ls != [] {
      var init := ls[..|ls| - 1];
      WarningsExactly(init, n);
      if 1 <= n < |ls| {
        assert init[n - 1] == ls[n - 1];
      }
    }
  }

  /** Whether some line declares the module, as the `inModule` flag records it. */
  predicate HasModuleLine(ls: seq<ScannedLine>)
    decreases |ls|
  {
    ls != [] && (HasModuleLine(ls[..|ls| - 1]) || ls[|ls| - 1].declaresModule)
  }

  lemma {:induction false} HasModuleLineIff(ls: seq<ScannedLine>)
    ensures HasModuleLine(ls) <==> exists i :: 0 <= i < |ls| && ls[i].declaresModule
    decreases |ls|
  {
    if ls != [] {
      var init := ls[..|ls| - 1];
      HasModuleLineIff(init);
      if exists i :: 0 <= i < |ls| && ls[i].declaresModule {
        var i :| 0 <= i < |ls| && ls[i].declaresModule;
        if i < |init| {
          assert init[i] == ls[i];
        }
      }
    }
  }

  /** The warnings `validateSyntax` prints for the lines of a file. */
  function FileWarnings(lines: seq<string>): seq<nat>
  {
    Warnings(ScanAll(lines))
  }

  /** A warning names a line exactly when that line is checked and has a misplaced semicolon. */
  lemma FileWarningsExactly(lines: seq<string>, n: nat)
    ensures n in FileWarnings(lines) <==>
      1 <= n <= |lines| && !Skipped(Trim(lines[n - 1])) && Misplaced(Trim(lines[n - 1]))
  {
    var ls := ScanAll(lines);
    WarningsExactly(ls, n);
    if 1 <= n <= |lines| {
      assert ls[n - 1] == Scan(lines[n - 1]);
    }
  }

  /**
   * The verdict of `validateSyntax` on its lines: the missing module is
   * reported before unbalanced braces, and `None` means the validation passed.
   */
  function Verdict(ls: seq<ScannedLine>): (r: Option<SyntaxError>)
    ensures r == Some(NoModuleDeclaration) <==> forall i :: 0 <= i < |ls| ==> !ls[i].declaresModule
    ensures r == Some(UnbalancedBraces) <==> (exists i :: 0 <= i < |ls| && ls[i].declaresModule) && Balance(ls) != 0
    ensures r.None? <==> (exists i :: 0 <= i < |ls| && ls[i].declaresModule) && Balance(ls) == 0
  {
    HasModuleLineIff(ls);
    if !HasModuleLine(ls) then Some(NoModuleDeclaration)
    else if Balance(ls) != 0 then Some(UnbalancedBraces)
    else None
  }

  /** The verdict of `validateSyntax` on the lines of a file. */
  function Validate(lines: seq<string>): Option<SyntaxError>
  {
    Verdict(ScanAll(lines))
  }

  /** The verdict in terms of the file's own lines. */
  lemma ValidateMeaning(lines: seq<string>)
    ensures Validate(lines) == Some(NoModuleDeclaration) <==> forall i :: 0 <= i < |lines| ==> !IsModuleLine(lines[i])
    ensures Validate(lines) == Some(UnbalancedBraces) <==>
      (exists i :: 0 <= i < |lines| && IsModuleLine(lines[i])) && Balance(ScanAll(lines)) != 0
    ensures Validate(lines).None? <==>
      (exists i :: 0 <= i < |lines| && IsModuleLine(lines[i])) && Balance(ScanAll(lines)) == 0
  {
    var ls := ScanAll(lines);
    if exists i :: 0 <= i < |lines| && IsModuleLine(lines[i]) {
      var i :| 0 <= i < |lines| && IsModuleLine(lines[i]);
      assert ls[i] == Scan(lines[i]);
    }
  }

  /**
   * The missing-module error of `validateSyntax` and the `null` result of
   * `parseYangFile` happen on exactly the same files.
   */
  lemma NoModuleIffParseFails(lines: seq<string>)
    ensures Validate(lines) == Some(NoModuleDeclaration) <==> Parse(lines).None?
  {
    ValidateMeaning(lines);
    ParseIsNoneIff(lines);
  }

  /** The inner loop of `validateSyntax`: one step of the count per character of the line. */
  method CountBraces(braceCount: int, line: string) returns (count: int)
    ensures count == braceCount + BraceDelta(line)
  {
    count := braceCount;
    var j := 0;
    while j < |line|
      invariant 0 <= j <= |line|
      invariant count == braceCount + BraceDelta(line[..j])
    {
      assert line[..j + 1][..j] == line[..j];
      if line[j] == '{' {
        count := count + 1;
      }
      if line[j] == '}' {
        count := count - 1;
      }
      j := j + 1;
    }
    assert line[..j] == line;
  }

  /**
   * The body of the loop of `validateSyntax` for the physical line numbered
   * `lineNumber`: skip it, or count its braces, note a module declaration and
   * warn about a misplaced semicolon.
   */
  method CheckLine(raw: string, lineNumber: nat, braceCount: int, inModule: bool, warnings: seq<nat>)
    returns (braceCount': int, inModule': bool, warnings': seq<nat>)
    ensures braceCount' == braceCount + LineDelta(Scan(raw))
    ensures inModule' == (inModule || Scan(raw).declaresModule)
    ensures warnings' == warnings + (if Warned(Scan(raw)) then [lineNumber] else [])
  {
    braceCount', inModule', warnings' := braceCount, inModule, warnings;
    var line := Trim(raw);

    if Skipped(line) {
      return;
    }

    braceCount' := CountBraces(braceCount, line);

    if MatchModule(line).Some? {
      inModule' := true;
    }

    if Misplaced(line) {
      warnings' := warnings + [lineNumber];
    }
  }

  /** How the three results grow by one line. */
  lemma PrefixStep(ls: seq<ScannedLine>, n: nat)
    requires 0 < n <= |ls|
    ensures Balance(ls[..n]) == Balance(ls[..n - 1]) + LineDelta(ls[n - 1])
    ensures HasModuleLine(ls[..n]) == (HasModuleLine(ls[..n - 1]) || ls[n - 1].declaresModule)
    ensures Warnings(ls[..n]) == Warnings(ls[..n - 1]) + (if Warned(ls[n - 1]) then [n] else [])
  {
    assert ls[..n][..n - 1] == ls[..n - 1];
  }

  /**
   * The loop of `validateSyntax` over lines already read from the file,
   * returning the exception it would throw (or `None`) and the line numbers
   * of the warnings it prints along the way.
   */
  method ValidateSyntax(lines: seq<string>) returns (error: Option<SyntaxError>, warnings: seq<nat>)
    ensures error == Validate(lines)
    ensures warnings == FileWarnings(lines)
  {
    ghost var ls := ScanAll(lines);
    var braceCount := 0;
    var lineNumber := 0;
    var inModule := false;
    warnings := [];
    while lineNumber < |lines|
      invariant 0 <= lineNumber <= |lines|
      invariant braceCount == Balance(ls[..lineNumber])
      invariant inModule == HasModuleLine(ls[..lineNumber])
      invariant warnings == Warnings(ls[..lineNumber])
    {
      var raw := lines[lineNumber];
      lineNumber := lineNumber + 1;
      braceCount, inModule, warnings := CheckLine(raw, lineNumber, braceCount, inModule, warnings);
      PrefixStep(ls, lineNumber);
    }
    assert ls[..lineNumber] == ls;

    if !inModule {
      return Some(NoModuleDeclaration), warnings;
    }
    if braceCount != 0 {
      return Some(UnbalancedBraces), warnings;
    }
    error := None;
  }
}
