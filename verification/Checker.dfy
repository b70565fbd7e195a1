/** internal/judgecore/checker/checker.go: comparing a program's output with the expected one. */
module Checker {
  import opened Sorting
  import opened Text

  const POLICY_EXACT := "exact"
  const POLICY_IGNORE_TRAILING := "ignore_trailing_whitespace"
  const POLICY_IGNORE_ALL_WHITESPACE := "ignore_all_whitespace"

  datatype CheckResult = CheckResult(accepted: bool, message: string, diffSummary: string)

  predicate Trailing(c: char) {
    c == ' ' || c == '\t' || c == '\r'
  }

  /** strings.TrimRight(line, " \t\r"). */
  function TrimLine(line: string): (r: string)
    ensures r <= line
    ensures r == [] || !Trailing(r[|r| - 1])
    ensures forall i | |r| <= i < |line| :: Trailing(line[i])
  {
    if line != [] && Trailing(line[|line| - 1]) then TrimLine(line[..|line| - 1]) else line
  }

  function TrimLines(lines: seq<string>): (r: seq<string>)
    ensures |r| == |lines| && forall i | 0 <= i < |lines| :: r[i] == TrimLine(lines[i])
  {
    seq(|lines|, i requires 0 <= i < |lines| => TrimLine(lines[i]))
  }

  function Trimmed(value: string): string {
    Join(TrimLines(Split(value, '\n')), '\n')
  }

  method TrimTrailingSpaceLines(value: string) returns (r: string)
    ensures r == Trimmed(value)
  {
    var lines := Split(value, '\n');
    ghost var before := lines;
    for i := 0 to |lines|
      invariant |lines| == |before|
      invariant forall k | 0 <= k < i :: lines[k] == TrimLine(before[k])
      invariant forall k | i <= k < |lines| :: lines[k] == before[k]
    {
      lines := lines[i := TrimLine(lines[i])];
    }
    assert lines == TrimLines(before);
    r := Join(lines, '\n');
  }

  /** The form in which a policy compares; an unknown policy compares as it is. */
  function Normal(policy: string, s: string): string {
    if policy == POLICY_IGNORE_TRAILING then Trimmed(s)
    else if policy == POLICY_IGNORE_ALL_WHITESPACE then Join(Fields(s), ' ')
    else s
  }

  function Escape(s: string): string {
    if s == [] then [] else (if s[0] == '\n' then "\\n" else [s[0]]) + Escape(s[1..])
  }

  function QuoteSummary(s: string): string {
    "\"" + Escape(s) + "\""
  }

  function FirstDiff(expected: string, actual: string): string {
    var e := if |expected| > 80 then expected[..80] else expected;
    var a := if |actual| > 80 then actual[..80] else actual;
    "expected " + QuoteSummary(e) + ", got " + QuoteSummary(a)
  }

  method Check(expectedOutput: string, actualOutput: string, policy: string) returns (r: CheckResult)
    ensures r.accepted == (Normal(policy, expectedOutput) == Normal(policy, actualOutput))
    ensures policy == "ignore_all_whitespace" ==> r.accepted == (Fields(expectedOutput) == Fields(actualOutput))
    ensures policy == "ignore_trailing_whitespace" ==> r.accepted == SameLines(Split(expectedOutput, '\n'), Split(actualOutput, '\n'))
    ensures policy != "ignore_all_whitespace" && policy != "ignore_trailing_whitespace" ==> r.accepted == (expectedOutput == actualOutput)
    ensures r == if r.accepted then CheckResult(true, "", "")
                 else CheckResult(false, "output differs from expected output",
                                  FirstDiff(Normal(policy, expectedOutput), Normal(policy, actualOutput)))
  {
    var expected, actual := expectedOutput, actualOutput;
    if policy == "" || policy == POLICY_EXACT {
    } else if policy == POLICY_IGNORE_TRAILING {
      expected := TrimTrailingSpaceLines(expected);
      actual := TrimTrailingSpaceLines(actual);
    } else if policy == POLICY_IGNORE_ALL_WHITESPACE {
      expected := Join(Fields(expected), ' ');
      actual := Join(Fields(actual), ' ');
    }
    AllWhitespaceMeaning(expectedOutput, actualOutput);
    TrailingMeaning(expectedOutput, actualOutput);
    if expected == actual {
      return CheckResult(true, "", "");
    }
    return CheckResult(false, "output differs from expected output", FirstDiff(expected, actual));
  }

  // ----- trimming -----

  lemma TrimmedLines(value: string)
    ensures Split(Trimmed(value), '\n') == TrimLines(Split(value, '\n'))
  {
    SplitJoin(TrimLines(Split(value, '\n')), '\n');
  }

  lemma {:induction false} TrimIdempotent(value: string)
    ensures Trimmed(Trimmed(value)) == Trimmed(value)
  {
    TrimmedLines(value);
    var lines := Split(value, '\n');
    forall i | 0 <= i < |lines| ensures TrimLine(TrimLine(lines[i])) == TrimLine(lines[i]) {
    }
    assert TrimLines(TrimLines(lines)) == TrimLines(lines);
  }

  lemma LineFields(line: string)
    ensures Fields(TrimLine(line)) == Fields(line)
  {
    var kept := TrimLine(line);
    var rest := line[|kept|..];
    assert line == kept + rest;
    FieldsConcat(kept, rest);
    SpaceHasNoFields(rest);
  }

  lemma JoinedFields(lines: seq<string>)
    requires |lines| > 1
    ensures Fields(Join(lines, '\n')) == Fields(lines[0]) + Fields(Join(lines[1..], '\n'))
  {
    var rest := "\n" + Join(lines[1..], '\n');
    assert Join(lines, '\n') == lines[0] + rest;
    FieldsConcat(lines[0], rest);
    assert rest[1..] == Join(lines[1..], '\n');
  }

  lemma {:induction false} LinesFields(lines: seq<string>)
    requires lines != []
    ensures Fields(Join(TrimLines(lines), '\n')) == Fields(Join(lines, '\n'))
  {
    LineFields(lines[0]);
    if |lines| > 1 {
      JoinedFields(lines);
      JoinedFields(TrimLines(lines));
      assert TrimLines(lines)[1..] == TrimLines(lines[1..]);
      LinesFields(lines[1..]);
    }
  }

  /** Trimming changes no field. */
  lemma TrimKeepsFields(value: string)
    ensures Fields(Trimmed(value)) == Fields(value)
  {
    LinesFields(Split(value, '\n'));
    JoinSplit(value, '\n');
  }

  // ----- what each policy accepts -----

  /** Nothing but blanks, tabs and carriage returns from `n` on. */
  predicate BlankFrom(line: string, n: nat) {
    n <= |line| && forall i | n <= i < |line| :: line[i] == ' ' || line[i] == '\t' || line[i] == '\r'
  }

  /** Two lines that differ at most in blanks, tabs and carriage returns at their ends. */
  ghost predicate SameButTail(x: string, y: string) {
    exists n: nat :: BlankFrom(x, n) && BlankFrom(y, n) && x[..n] == y[..n]
  }

  ghost predicate SameLines(x: seq<string>, y: seq<string>) {
    |x| == |y| && forall i | 0 <= i < |x| :: SameButTail(x[i], y[i])
  }

  lemma {:induction false} BlankTailGoes(line: string, n: nat)
    requires BlankFrom(line, n)
    ensures TrimLine(line) == TrimLine(line[..n])
  {
    if n < |line| {
      var shorter := line[..|line| - 1];
      BlankTailGoes(shorter, n);
      assert shorter[..n] == line[..n];
    } else {
      assert line[..n] == line;
    }
  }

  lemma SameLine(x: string, y: string)
    ensures TrimLine(x) == TrimLine(y) <==> SameButTail(x, y)
  {
    if n: nat :| BlankFrom(x, n) && BlankFrom(y, n) && x[..n] == y[..n] {
      BlankTailGoes(x, n);
      BlankTailGoes(y, n);
    }
    if TrimLine(x) == TrimLine(y) {
      var n := |TrimLine(x)|;
      assert BlankFrom(x, n) && BlankFrom(y, n) && x[..n] == y[..n];
    }
  }

  /** Line by line, up to trailing blanks, tabs and carriage returns. */
  lemma TrailingMeaning(a: string, b: string)
    ensures Trimmed(a) == Trimmed(b) <==> SameLines(Split(a, '\n'), Split(b, '\n'))
  {
    var x, y := Split(a, '\n'), Split(b, '\n');
    TrimmedLines(a);
    TrimmedLines(b);
    forall i | 0 <= i < |x| && i < |y| ensures TrimLine(x[i]) == TrimLine(y[i]) <==> SameButTail(x[i], y[i]) {
      SameLine(x[i], y[i]);
    }
    if Trimmed(a) == Trimmed(b) {
      assert TrimLines(x) == TrimLines(y);
      forall i | 0 <= i < |x| ensures TrimLine(x[i]) == TrimLine(y[i]) {
        assert TrimLines(x)[i] == TrimLines(y)[i];
      }
    }
    if SameLines(x, y) {
      assert TrimLines(x) == TrimLines(y);
    }
  }

  lemma AllWhitespaceMeaning(a: string, b: string)
    ensures Join(Fields(a), ' ') == Join(Fields(b), ' ') <==> Fields(a) == Fields(b)
  {
    FieldsJoin(Fields(a), ' ');
    FieldsJoin(Fields(b), ' ');
  }

  predicate Accepts(policy: string, expected: string, actual: string) {
    Normal(policy, expected) == Normal(policy, actual)
  }

  /** Each policy accepts all that the stricter one before it accepts. */
  lemma PolicyChain(expected: string, actual: string)
    ensures Accepts(POLICY_EXACT, expected, actual) ==> Accepts(POLICY_IGNORE_TRAILING, expected, actual)
    ensures Accepts(POLICY_IGNORE_TRAILING, expected, actual) ==> Accepts(POLICY_IGNORE_ALL_WHITESPACE, expected, actual)
  {
    TrimKeepsFields(expected);
    TrimKeepsFields(actual);
    AllWhitespaceMeaning(expected, actual);
  }

  /** The chain is strict: the exact policy refuses a blank, and the second refuses a line break. */
  lemma ChainIsStrict()
    ensures !Accepts(POLICY_EXACT, "a", "a ") && Accepts(POLICY_IGNORE_TRAILING, "a", "a ")
    ensures !Accepts(POLICY_IGNORE_TRAILING, "a", "a\n") && Accepts(POLICY_IGNORE_ALL_WHITESPACE, "a", "a\n")
  {
    TrailingMeaning("a", "a ");
    SplitPrefix("a", "", '\n');
    SplitPrefix("a ", "", '\n');
    assert "a" + "" == "a" && "a " + "" == "a ";
    assert Split("", '\n') == [[]];
    assert SameButTail("a", "a ") by {
      assert BlankFrom("a", 1) && BlankFrom("a ", 1) && "a"[..1] == "a "[..1];
    }
    TrailingMeaning("a", "a\n");
    SplitPrefix("a", "\n", '\n');
    assert "a" + "\n" == "a\n" && "\n"[1..] == "";
    FieldsConcat("a", "\n");
    SpaceHasNoFields("\n");
    AllWhitespaceMeaning("a", "a\n");
  }

  lemma {:induction false} EscapeHasNoNewline(s: string)
    ensures '\n' !in Escape(s)
  {
    if s != [] {
      EscapeHasNoNewline(s[1..]);
    }
  }

  lemma {:induction false} NothingToEscape(s: string)
    requires '\n' !in s
    ensures Escape(s) == s
  {
    if s != [] {
      NothingToEscape(s[1..]);
    }
  }

  /** The report quotes the first eighty characters of each output, as they are unless a line break is among them. */
  lemma DiffShowsStart(expected: string, actual: string, e: string, a: string)
    requires e == Take(expected, 80) && a == Take(actual, 80) && '\n' !in e && '\n' !in a
    ensures FirstDiff(expected, actual) == "expected " + ("\"" + e + "\"") + ", got " + ("\"" + a + "\"")
  {
    NothingToEscape(e);
    NothingToEscape(a);
  }

  /** A difference is reported on one line, whatever was printed. */
  lemma DiffIsOneLine(expected: string, actual: string)
    ensures '\n' !in FirstDiff(expected, actual)
  {
    EscapeHasNoNewline(if |expected| > 80 then expected[..80] else expected);
    EscapeHasNoNewline(if |actual| > 80 then actual[..80] else actual);
  }
}
