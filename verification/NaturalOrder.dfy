/**
 * internal/problem/testcase_archive.go: the natural order of case keys. `lower` stands for
 * strings.ToLower, which may be any function here.
 */
module NaturalOrder {
  import opened Sorting
  import opened TextOrder

  datatype Token = Token(digit: bool, text: string)

  predicate IsDigit(c: char) {
    '0' <= c <= '9'
  }

  /** The length of the run of equal kind that starts `value`. */
  function RunLength(value: string, digit: bool): (n: nat)
    ensures n <= |value|
    ensures forall i | 0 <= i < n :: IsDigit(value[i]) == digit
    ensures n < |value| ==> IsDigit(value[n]) != digit
  {
    if value == [] || IsDigit(value[0]) != digit then 0 else 1 + RunLength(value[1..], digit)
  }

  function Tokens(value: string): (r: seq<Token>)
    decreases |value|
  {
    if value == [] then []
    else
      var digit := IsDigit(value[0]);
      var n := RunLength(value, digit);
      [Token(digit, value[..n])] + Tokens(value[n..])
  }

  lemma {:induction false} TokensAppend(tokens: seq<Token>, rest: string)
    requires rest != []
    ensures var n := RunLength(rest, IsDigit(rest[0]));
            tokens + Tokens(rest) == (tokens + [Token(IsDigit(rest[0]), rest[..n])]) + Tokens(rest[n..])
  {
  }

  /** A run is as long as the same kind goes on. */
  lemma {:induction false} RunEnds(value: string, digit: bool, n: nat)
    requires n <= |value| && (forall i | 0 <= i < n :: IsDigit(value[i]) == digit)
    requires n < |value| ==> IsDigit(value[n]) != digit
    ensures RunLength(value, digit) == n
  {
    if n > 0 {
      RunEnds(value[1..], digit, n - 1);
    }
  }

  /** The inner loop: where the run that starts at `index` ends. */
  method RunEnd(value: string, index: nat) returns (end: nat)
    requires index < |value|
    ensures index < end <= |value| && end - index == RunLength(value[index..], IsDigit(value[index]))
  {
    var isDigit := IsDigit(value[index]);
    end := index + 1;
    while end < |value| && IsDigit(value[end]) == isDigit
      invariant index < end <= |value|
      invariant forall i | index <= i < end :: IsDigit(value[i]) == isDigit
    {
      end := end + 1;
    }
    RunEnds(value[index..], isDigit, end - index);
  }

  /** `tokens` are the runs before `index`. */
  ghost predicate CutUpTo(value: string, index: nat, tokens: seq<Token>)
    requires index <= |value|
  {
    Tokens(value) == tokens + Tokens(value[index..])
  }

  /** Cutting off one run. */
  lemma CutOne(value: string, index: nat, end: nat, tokens: seq<Token>)
    requires index < end <= |value| && CutUpTo(value, index, tokens)
    requires end - index == RunLength(value[index..], IsDigit(value[index]))
    ensures CutUpTo(value, end, tokens + [Token(IsDigit(value[index]), value[index..end])])
  {
    var rest := value[index..];
    TokensAppend(tokens, rest);
    assert rest[..end - index] == value[index..end] && rest[end - index..] == value[end..];
  }

  method NaturalTokens(value: string) returns (tokens: seq<Token>)
    ensures tokens == Tokens(value)
  {
    tokens := [];
    var index := 0;
    assert value[0..] == value;
    while index < |value|
      invariant index <= |value| && CutUpTo(value, index, tokens)
    {
      var end := RunEnd(value, index);
      CutOne(value, index, end, tokens);
      tokens := tokens + [Token(IsDigit(value[index]), value[index..end])];
      index := end;
    }
    assert value[|value|..] == [];
  }

  // ----- tokens say what the string says -----

  function Concat(tokens: seq<Token>): string {
    if tokens == [] then [] else tokens[0].text + Concat(tokens[1..])
  }

  lemma ConcatMore(value: string, n: nat, t: Token, rest: seq<Token>)
    requires n <= |value| && t.text == value[..n] && Concat(rest) == value[n..]
    ensures Concat([t] + rest) == value
  {
    assert ([t] + rest)[1..] == rest;
    assert value == value[..n] + value[n..];
  }

  ghost predicate WellFormed(t: Token) {
    t.text != [] && forall i | 0 <= i < |t.text| :: IsDigit(t.text[i]) == t.digit
  }

  lemma {:induction false} ConcatSpells(value: string)
    ensures Concat(Tokens(value)) == value
    decreases |value|
  {
    if value != [] {
      var digit := IsDigit(value[0]);
      var n := RunLength(value, digit);
      ConcatSpells(value[n..]);
      ConcatMore(value, n, Token(digit, value[..n]), Tokens(value[n..]));
    }
  }

  lemma {:induction false} TokensAreRuns(value: string, k: nat)
    requires k < |Tokens(value)|
    ensures WellFormed(Tokens(value)[k])
    ensures k + 1 < |Tokens(value)| ==> Tokens(value)[k].digit != Tokens(value)[k + 1].digit
    decreases |value|
  {
    var n := RunLength(value, IsDigit(value[0]));
    var rest := value[n..];
    assert rest != [] ==> Tokens(rest)[0].digit == IsDigit(rest[0]);
    if k > 0 {
      TokensAreRuns(rest, k - 1);
    }
  }

  /** The tokens are maximal runs of one kind and spell the string. */
  lemma TokensSpell(value: string)
    ensures Concat(Tokens(value)) == value
    ensures forall k | 0 <= k < |Tokens(value)| :: WellFormed(Tokens(value)[k])
    ensures forall k | 0 <= k < |Tokens(value)| - 1 :: Tokens(value)[k].digit != Tokens(value)[k + 1].digit
  {
    ConcatSpells(value);
    forall k | 0 <= k < |Tokens(value)|
      ensures WellFormed(Tokens(value)[k]) && (k + 1 < |Tokens(value)| ==> Tokens(value)[k].digit != Tokens(value)[k + 1].digit)
    {
      TokensAreRuns(value, k);
    }
  }

  // ----- digit runs compare as numbers -----

  function TrimZeros(s: string): (r: string)
    ensures |r| <= |s|
    ensures r != [] ==> r[0] != '0'
  {
    if s != [] && s[0] == '0' then TrimZeros(s[1..]) else s
  }

  function CompareDigitRuns(a: string, b: string): int {
    var x, y := TrimZeros(a), TrimZeros(b);
    if |x| != |y| then (if |x| < |y| then -1 else 1) else Compare(x, y)
  }

  ghost predicate Digits(s: string) {
    forall i | 0 <= i < |s| :: IsDigit(s[i])
  }

  lemma NatProduct(a: nat, b: nat)
    ensures a * b >= 0
  {
  }

  function Power(n: nat): (p: nat)
    ensures p >= 1
  {
    if n == 0 then 1 else 10 * Power(n - 1)
  }

  /** The number a digit run denotes, of any length. */
  function Value(s: string): (v: nat)
    requires Digits(s)
  {
    if s == [] then 0
    else
      NatProduct(s[0] as int - '0' as int, Power(|s| - 1));
      (s[0] as int - '0' as int) * Power(|s| - 1) + Value(s[1..])
  }

  lemma DigitTimes(d: nat, p: nat)
    requires d <= 9
    ensures d * p <= 9 * p
  {
  }

  lemma {:induction false} ValueBelow(s: string)
    requires Digits(s)
    ensures Value(s) < Power(|s|)
  {
    if s != [] {
      ValueBelow(s[1..]);
      DigitTimes(s[0] as int - '0' as int, Power(|s| - 1));
    }
  }

  lemma {:induction false} TrimKeepsValue(s: string)
    requires Digits(s)
    ensures Digits(TrimZeros(s)) && Value(TrimZeros(s)) == Value(s)
  {
    if s != [] && s[0] == '0' {
      TrimKeepsValue(s[1..]);
    }
  }

  lemma {:induction false} PowerGrows(m: nat, n: nat)
    requires m <= n
    ensures Power(m) <= Power(n)
  {
    if m < n {
      PowerGrows(m, n - 1);
    }
  }

  lemma TimesAtLeast(d: nat, p: nat)
    requires d >= 1
    ensures d * p >= p
  {
    assert d * p == (d - 1) * p + p;
  }

  /** Without leading zeros, a longer run denotes a larger number. */
  lemma LongerIsLarger(a: string, b: string)
    requires Digits(a) && Digits(b) && |a| < |b| && b[0] != '0'
    ensures Value(a) < Value(b)
  {
    ValueBelow(a);
    PowerGrows(|a|, |b| - 1);
    var d := b[0] as int - '0' as int;
    TimesAtLeast(d, Power(|b| - 1));
    assert Value(b) == d * Power(|b| - 1) + Value(b[1..]);
  }

  lemma OneMoreTimes(d: nat, e: nat, p: nat)
    requires d < e
    ensures e * p >= d * p + p
  {
    assert e * p == (d + 1) * p + (e - d - 1) * p;
  }

  lemma HigherDigitIsLarger(a: string, b: string)
    requires Digits(a) && Digits(b) && |a| == |b| > 0 && a[0] < b[0]
    ensures Value(a) < Value(b)
  {
    ValueBelow(a[1..]);
    OneMoreTimes(a[0] as int - '0' as int, b[0] as int - '0' as int, Power(|a| - 1));
  }

  lemma {:induction false} SameLengthCompares(a: string, b: string)
    requires Digits(a) && Digits(b) && |a| == |b|
    ensures Compare(a, b) < 0 <==> Value(a) < Value(b)
    ensures Compare(a, b) == 0 <==> Value(a) == Value(b)
  {
    if a != [] {
      if a[0] < b[0] {
        HigherDigitIsLarger(a, b);
      } else if b[0] < a[0] {
        HigherDigitIsLarger(b, a);
      } else {
        SameLengthCompares(a[1..], b[1..]);
      }
    }
  }

  /** Digit runs of any length compare by the numbers they denote. */
  lemma DigitRunsCompareAsNumbers(a: string, b: string)
    requires Digits(a) && Digits(b)
    ensures CompareDigitRuns(a, b) < 0 <==> Value(a) < Value(b)
    ensures CompareDigitRuns(a, b) == 0 <==> Value(a) == Value(b)
    ensures CompareDigitRuns(a, b) > 0 <==> Value(a) > Value(b)
  {
    TrimKeepsValue(a);
    TrimKeepsValue(b);
    var x, y := TrimZeros(a), TrimZeros(b);
    if |x| < |y| {
      LongerIsLarger(x, y);
    } else if |y| < |x| {
      LongerIsLarger(y, x);
    } else {
      SameLengthCompares(x, y);
    }
  }

  // ----- tokens are totally ordered -----

  function CompareTokens(lower: string -> string, a: Token, b: Token): int {
    if a.digit != b.digit then (if a.digit then -1 else 1)
    else if a.digit then
      var byNumber := CompareDigitRuns(a.text, b.text);
      if byNumber != 0 then byNumber else Compare(a.text, b.text)
    else
      var folded := Compare(lower(a.text), lower(b.text));
      if folded != 0 then folded else Compare(a.text, b.text)
  }

  lemma DigitRunsFlip(a: string, b: string)
    ensures CompareDigitRuns(b, a) == -CompareDigitRuns(a, b)
  {
    CompareFlips(TrimZeros(a), TrimZeros(b));
  }

  lemma DigitRunsTransitive(a: string, b: string, c: string)
    requires CompareDigitRuns(a, b) <= 0 && CompareDigitRuns(b, c) <= 0
    ensures CompareDigitRuns(a, c) <= 0
    ensures CompareDigitRuns(a, b) < 0 || CompareDigitRuns(b, c) < 0 ==> CompareDigitRuns(a, c) < 0
  {
    var x, y, z := TrimZeros(a), TrimZeros(b), TrimZeros(c);
    if |x| == |y| == |z| {
      CompareTransitive(x, y, z);
    }
  }

  lemma TokensFlip(lower: string -> string, a: Token, b: Token)
    ensures CompareTokens(lower, b, a) == -CompareTokens(lower, a, b)
    ensures CompareTokens(lower, a, b) == 0 <==> a == b
  {
    CompareFlips(a.text, b.text);
    CompareZero(a.text, b.text);
    CompareFlips(lower(a.text), lower(b.text));
    CompareZero(lower(a.text), lower(b.text));
    DigitRunsFlip(a.text, b.text);
    CompareZero(TrimZeros(a.text), TrimZeros(b.text));
  }

  lemma TokensTransitive(lower: string -> string, a: Token, b: Token, c: Token)
    requires CompareTokens(lower, a, b) <= 0 && CompareTokens(lower, b, c) <= 0
    ensures CompareTokens(lower, a, c) <= 0
    ensures CompareTokens(lower, a, b) < 0 || CompareTokens(lower, b, c) < 0 ==> CompareTokens(lower, a, c) < 0
  {
    if a.digit == b.digit == c.digit {
      if a.digit {
        DigitRunsTransitive(a.text, b.text, c.text);
      } else {
        CompareTransitive(lower(a.text), lower(b.text), lower(c.text));
      }
      if Compare(a.text, b.text) <= 0 && Compare(b.text, c.text) <= 0 {
        CompareTransitive(a.text, b.text, c.text);
      }
    }
  }

  // ----- strings are totally ordered -----

  function TokensLess(lower: string -> string, left: seq<Token>, right: seq<Token>): bool {
    if left == [] || right == [] then |left| < |right|
    else
      var c := CompareTokens(lower, left[0], right[0]);
      if c != 0 then c < 0 else TokensLess(lower, left[1..], right[1..])
  }

  predicate NaturalBefore(lower: string -> string, a: string, b: string) {
    TokensLess(lower, Tokens(a), Tokens(b))
  }

  lemma LessFrom(lower: string -> string, left: seq<Token>, right: seq<Token>, i: nat)
    requires i < |left| && i < |right|
    ensures var c := CompareTokens(lower, left[i], right[i]);
            TokensLess(lower, left[i..], right[i..]) == if c != 0 then c < 0 else TokensLess(lower, left[i + 1..], right[i + 1..])
  {
    assert left[i..][1..] == left[i + 1..] && right[i..][1..] == right[i + 1..];
  }

  method NaturalLess(lower: string -> string, a: string, b: string) returns (less: bool)
    ensures less == NaturalBefore(lower, a, b)
  {
    var left := NaturalTokens(a);
    var right := NaturalTokens(b);
    var i := 0;
    while i < |left| && i < |right|
      invariant i <= |left| && i <= |right|
      invariant NaturalBefore(lower, a, b) == TokensLess(lower, left[i..], right[i..])
    {
      LessFrom(lower, left, right, i);
      var comparison := CompareTokens(lower, left[i], right[i]);
      if comparison != 0 {
        return comparison < 0;
      }
      i := i + 1;
    }
    return |left| < |right|;
  }

  lemma {:induction false} TokensTrichotomy(lower: string -> string, a: seq<Token>, b: seq<Token>)
    ensures !TokensLess(lower, a, b) && !TokensLess(lower, b, a) <==> a == b
    ensures !(TokensLess(lower, a, b) && TokensLess(lower, b, a))
  {
    if a != [] && b != [] {
      TokensFlip(lower, a[0], b[0]);
      TokensTrichotomy(lower, a[1..], b[1..]);
      assert a == [a[0]] + a[1..] && b == [b[0]] + b[1..];
    }
  }

  lemma {:induction false} TokensLessTransitive(lower: string -> string, a: seq<Token>, b: seq<Token>, c: seq<Token>)
    requires TokensLess(lower, a, b) && TokensLess(lower, b, c)
    ensures TokensLess(lower, a, c)
  {
    if a != [] && b != [] && c != [] {
      TokensFlip(lower, a[0], b[0]);
      TokensFlip(lower, b[0], c[0]);
      TokensTransitive(lower, a[0], b[0], c[0]);
      if a[0] == b[0] == c[0] {
        TokensLessTransitive(lower, a[1..], b[1..], c[1..]);
      }
    }
  }

  /** Strings with the same tokens are the same, so exactly one of before, equal, after holds. */
  lemma NaturalTrichotomy(lower: string -> string, a: string, b: string)
    ensures !NaturalBefore(lower, a, b) && !NaturalBefore(lower, b, a) <==> a == b
    ensures !(NaturalBefore(lower, a, b) && NaturalBefore(lower, b, a))
  {
    TokensTrichotomy(lower, Tokens(a), Tokens(b));
    TokensSpell(a);
    TokensSpell(b);
  }

  lemma NaturalTransitive(lower: string -> string, a: string, b: string, c: string)
    requires NaturalBefore(lower, a, b) && NaturalBefore(lower, b, c)
    ensures NaturalBefore(lower, a, c)
  {
    TokensLessTransitive(lower, Tokens(a), Tokens(b), Tokens(c));
  }

  /** The order sortTestcaseKeys sorts with. */
  function NaturalAtMost(lower: string -> string): (string, string) -> bool {
    (a: string, b: string) => !NaturalBefore(lower, b, a)
  }

  /** It has one sorted arrangement of any keys, whatever order they come in. */
  lemma NaturalSortIsDeterministic(lower: string -> string, a: seq<string>, b: seq<string>)
    requires multiset(a) == multiset(b)
    ensures Sort(NaturalAtMost(lower), a) == Sort(NaturalAtMost(lower), b)
  {
    NaturalIsLinear(lower, a);
    SortForgetsOrder(NaturalAtMost(lower), a, b);
  }

  lemma NaturalIsLinear(lower: string -> string, s: seq<string>)
    ensures Preorder(NaturalAtMost(lower)) && NoTies(NaturalAtMost(lower), s)
  {
    var leq := NaturalAtMost(lower);
    forall a, b ensures leq(a, b) || leq(b, a) {
      NaturalTrichotomy(lower, a, b);
    }
    forall a, b, c | leq(a, b) && leq(b, c) ensures leq(a, c) {
      NaturalTrichotomy(lower, a, b);
      NaturalTrichotomy(lower, b, c);
      NaturalTrichotomy(lower, a, c);
      if NaturalBefore(lower, c, a) && a != b && b != c {
        NaturalTransitive(lower, c, a, b);
        NaturalTransitive(lower, b, c, a);
        NaturalTrichotomy(lower, c, b);
      }
    }
    forall i, j | 0 <= i < |s| && 0 <= j < |s| && leq(s[i], s[j]) && leq(s[j], s[i]) ensures s[i] == s[j] {
      NaturalTrichotomy(lower, s[i], s[j]);
    }
  }

  // ----- the order on whole strings -----

  lemma OneToken(s: string, digit: bool)
    requires s != [] && forall i | 0 <= i < |s| :: IsDigit(s[i]) == digit
    ensures Tokens(s) == [Token(digit, s)]
  {
    var n := RunLength(s, digit);
    assert n == |s| && s[..n] == s && s[n..] == [];
  }

  lemma OneTokenEach(lower: string -> string, a: string, b: string, t: Token, u: Token)
    requires Tokens(a) == [t] && Tokens(b) == [u]
    ensures NaturalBefore(lower, a, b) <==> CompareTokens(lower, t, u) < 0
  {
    var l, r := Tokens(a), Tokens(b);
    assert l[1..] == [] && r[1..] == [];
    assert !TokensLess(lower, l[1..], r[1..]);
  }

  lemma NumberTokens(lower: string -> string, a: string, b: string)
    requires Digits(a) && Digits(b)
    ensures CompareTokens(lower, Token(true, a), Token(true, b)) < 0 <==> Value(a) < Value(b) || (Value(a) == Value(b) && Compare(a, b) < 0)
  {
    DigitRunsCompareAsNumbers(a, b);
  }

  /** Numbers come by value, and of two spellings of one number the one that sorts first. */
  lemma NumbersByValue(lower: string -> string, a: string, b: string)
    requires a != [] && b != [] && (forall i | 0 <= i < |a| :: '0' <= a[i] <= '9') && (forall i | 0 <= i < |b| :: '0' <= b[i] <= '9')
    ensures Digits(a) && Digits(b)
    ensures NaturalBefore(lower, a, b) <==> Value(a) < Value(b) || (Value(a) == Value(b) && ComesFirst(a, b))
  {
    OneToken(a, true);
    OneToken(b, true);
    OneTokenEach(lower, a, b, Token(true, a), Token(true, b));
    NumberTokens(lower, a, b);
    CompareMeaning(a, b);
  }

  /** Strings without digits come by their lower case, and of two that agree in it the one that sorts first. */
  lemma WordsByLowerCase(lower: string -> string, a: string, b: string)
    requires a != [] && b != []
    requires (forall i | 0 <= i < |a| :: !('0' <= a[i] <= '9')) && forall i | 0 <= i < |b| :: !('0' <= b[i] <= '9')
    ensures NaturalBefore(lower, a, b) <==> ComesFirst(lower(a), lower(b)) || (lower(a) == lower(b) && ComesFirst(a, b))
  {
    OneToken(a, false);
    OneToken(b, false);
    OneTokenEach(lower, a, b, Token(false, a), Token(false, b));
    CompareMeaning(lower(a), lower(b));
    CompareZero(lower(a), lower(b));
    CompareMeaning(a, b);
  }

  /** What starts with a digit comes before what does not, and the empty string before both. */
  lemma DigitsFirst(lower: string -> string, a: string, b: string)
    requires b != []
    ensures a != [] && '0' <= a[0] <= '9' && !('0' <= b[0] <= '9') ==> NaturalBefore(lower, a, b)
    ensures a == [] ==> NaturalBefore(lower, a, b)
  {
  }
}
