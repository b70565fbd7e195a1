/** The parts of Go's strings package the judge relies on, over code points. */
module Text {

  /** unicode.IsSpace. */
  predicate IsSpace(c: char) {
    || '\t' <= c <= '\r' || c == ' ' || c == '\U{85}' || c == '\U{A0}'
    || c == '\U{1680}' || '\U{2000}' <= c <= '\U{200A}' || c == '\U{2028}' || c == '\U{2029}'
    || c == '\U{202F}' || c == '\U{205F}' || c == '\U{3000}'
  }

  predicate AllSpace(s: string) {
    forall i | 0 <= i < |s| :: IsSpace(s[i])
  }

  /** A nonempty run without white space. */
  predicate Word(s: string) {
    s != [] && forall i | 0 <= i < |s| :: !IsSpace(s[i])
  }

  /** strings.Split by a one-character separator: always at least one part. */
  function Split(s: string, sep: char): (parts: seq<string>)
    ensures parts != []
    ensures forall k | 0 <= k < |parts| :: sep !in parts[k]
  {
    if s == [] then [[]]
    else
      var rest := Split(s[1..], sep);
      if s[0] == sep then [[]] + rest else [[s[0]] + rest[0]] + rest[1..]
  }

  /** strings.Join with a one-character separator. */
  function Join(parts: seq<string>, sep: char): string {
    if parts == [] then []
    else if |parts| == 1 then parts[0]
    else parts[0] + [sep] + Join(parts[1..], sep)
  }

  lemma {:induction false} SplitPrefix(line: string, rest: string, sep: char)
    requires sep !in line
    ensures Split(line + rest, sep) == [line + Split(rest, sep)[0]] + Split(rest, sep)[1..]
  {
    if line == [] {
      assert line + rest == rest && line + Split(rest, sep)[0] == Split(rest, sep)[0];
      assert [Split(rest, sep)[0]] + Split(rest, sep)[1..] == Split(rest, sep);
    } else {
      assert (line + rest)[1..] == line[1..] + rest;
      SplitPrefix(line[1..], rest, sep);
      var head, tail := Split(rest, sep)[0], Split(rest, sep)[1..];
      assert ([line[1..] + head] + tail)[1..] == tail;
      assert [line[0]] + (line[1..] + head) == line + head;
    }
  }

  /** Splitting takes a join apart again. */
  lemma {:induction false} SplitJoin(parts: seq<string>, sep: char)
    requires parts != [] && forall k | 0 <= k < |parts| :: sep !in parts[k]
    ensures Split(Join(parts, sep), sep) == parts
  {
    if |parts| == 1 {
      SplitPrefix(parts[0], [], sep);
      assert parts[0] + [] == parts[0];
    } else {
      var rest := [sep] + Join(parts[1..], sep);
      assert Join(parts, sep) == parts[0] + rest;
      SplitJoin(parts[1..], sep);
      SplitPrefix(parts[0], rest, sep);
      assert rest[1..] == Join(parts[1..], sep);
      assert Split(rest, sep)[0] == [] && Split(rest, sep)[1..] == parts[1..];
      assert parts[0] + [] == parts[0] && parts == [parts[0]] + parts[1..];
    }
  }

  lemma {:induction false} JoinSplit(s: string, sep: char)
    ensures Join(Split(s, sep), sep) == s
  {
    if s != [] {
      JoinSplit(s[1..], sep);
      var rest := Split(s[1..], sep);
      if s[0] == sep {
        assert ([[]] + rest)[1..] == rest;
      } else {
        assert ([[s[0]] + rest[0]] + rest[1..])[1..] == rest[1..];
      }
    }
  }

  /** A stretch without the separator that cannot be made longer. */
  predicate Stretch(s: string, sep: char, from: nat, to: nat) {
    && from <= to <= |s| && sep !in s[from..to]
    && (from > 0 ==> s[from - 1] == sep) && (to < |s| ==> s[to] == sep)
  }

  lemma StretchLater(s: string, sep: char, from: nat, to: nat)
    requires s != [] && Stretch(s[1..], sep, from, to) && (from == 0 ==> s[0] == sep)
    ensures Stretch(s, sep, from + 1, to + 1) && s[from + 1..to + 1] == s[1..][from..to]
  {
    SliceOfTail(s, from + 1, to + 1);
  }

  lemma SliceOfTail(s: string, from: nat, to: nat)
    requires 0 < from <= to <= |s|
    ensures s[1..][from - 1..to - 1] == s[from..to]
  {
  }

  /** The parts of a split are its stretches. */
  lemma {:induction false} PartIsStretch(s: string, sep: char, k: nat) returns (from: nat, to: nat)
    requires k < |Split(s, sep)|
    ensures Stretch(s, sep, from, to) && s[from..to] == Split(s, sep)[k] && (from == 0 <==> k == 0)
  {
    if s == [] {
      from, to := 0, 0;
    } else if s[0] == sep && k == 0 {
      from, to := 0, 0;
    } else if s[0] == sep {
      from, to := PartIsStretch(s[1..], sep, k - 1);
      StretchLater(s, sep, from, to);
      from, to := from + 1, to + 1;
    } else {
      from, to := PartIsStretch(s[1..], sep, k);
      if k == 0 {
        assert s[..to + 1] == [s[0]] + s[1..][..to];
        to := to + 1;
      } else {
        StretchLater(s, sep, from, to);
        from, to := from + 1, to + 1;
      }
    }
  }

  lemma {:induction false} StretchIsPart(s: string, sep: char, from: nat, to: nat) returns (k: nat)
    requires Stretch(s, sep, from, to)
    ensures k < |Split(s, sep)| && Split(s, sep)[k] == s[from..to] && (from == 0 <==> k == 0)
  {
    if to == 0 {
      k := 0;
    } else if from == 0 {
      assert s[..to] == [s[0]] + s[1..][..to - 1];
      assert s[0] == s[..to][0];
      k := StretchIsPart(s[1..], sep, 0, to - 1);
    } else {
      SliceOfTail(s, from, to);
      k := StretchIsPart(s[1..], sep, from - 1, to - 1);
      k := if s[0] == sep then k + 1 else k;
    }
  }

  // ----- white space -----

  function WordLength(s: string): (n: nat)
    ensures n <= |s|
    ensures forall i | 0 <= i < n :: !IsSpace(s[i])
    ensures n < |s| ==> IsSpace(s[n])
  {
    if s == [] || IsSpace(s[0]) then 0 else 1 + WordLength(s[1..])
  }

  /** strings.Fields. */
  function Fields(s: string): (fields: seq<string>)
    ensures forall k | 0 <= k < |fields| :: Word(fields[k])
    decreases |s|
  {
    if s == [] then []
    else if IsSpace(s[0]) then Fields(s[1..])
    else [s[..WordLength(s)]] + Fields(s[WordLength(s)..])
  }

  lemma {:induction false} WordLengthIs(s: string, n: nat)
    requires n <= |s| && (forall i | 0 <= i < n :: !IsSpace(s[i])) && (n < |s| ==> IsSpace(s[n]))
    ensures WordLength(s) == n
  {
    if n > 0 {
      WordLengthIs(s[1..], n - 1);
    }
  }

  lemma {:induction false} WordLengthOfConcat(x: string, y: string)
    requires y == [] || IsSpace(y[0])
    ensures WordLength(x + y) == WordLength(x)
  {
    if x == [] {
      assert x + y == y;
    } else {
      assert (x + y)[1..] == x[1..] + y;
      WordLengthOfConcat(x[1..], y);
    }
  }

  lemma FirstWordOfConcat(x: string, y: string)
    requires x != [] && !IsSpace(x[0]) && (y == [] || IsSpace(y[0]))
    ensures var n := WordLength(x); n > 0 && Fields(x + y) == [x[..n]] + Fields(x[n..] + y)
  {
    var n := WordLength(x);
    WordLengthOfConcat(x, y);
    assert (x + y)[..n] == x[..n] && (x + y)[n..] == x[n..] + y;
  }

  /** Fields do not cross a white space. */
  lemma {:induction false} FieldsConcat(x: string, y: string)
    requires y == [] || IsSpace(y[0])
    ensures Fields(x + y) == Fields(x) + Fields(y)
    decreases |x|
  {
    if x == [] {
      assert x + y == y;
    } else if IsSpace(x[0]) {
      assert (x + y)[1..] == x[1..] + y;
      FieldsConcat(x[1..], y);
    } else {
      var n := WordLength(x);
      FirstWordOfConcat(x, y);
      FieldsConcat(x[n..], y);
      assert Fields(x) == [x[..n]] + Fields(x[n..]);
      assert [x[..n]] + (Fields(x[n..]) + Fields(y)) == ([x[..n]] + Fields(x[n..])) + Fields(y);
    }
  }

  lemma {:induction false} SpaceHasNoFields(s: string)
    requires AllSpace(s)
    ensures Fields(s) == []
  {
    if s != [] {
      SpaceHasNoFields(s[1..]);
    }
  }

  lemma {:induction false} FieldsOfWord(w: string)
    requires Word(w)
    ensures Fields(w) == [w]
  {
    WordLengthIs(w, |w|);
    assert w[..|w|] == w && w[|w|..] == [];
  }

  /** Words joined by a white space are the fields of the result. */
  lemma {:induction false} FieldsJoin(words: seq<string>, sep: char)
    requires IsSpace(sep) && forall k | 0 <= k < |words| :: Word(words[k])
    ensures Fields(Join(words, sep)) == words
  {
    if |words| == 1 {
      FieldsOfWord(words[0]);
    } else if |words| > 1 {
      var rest := [sep] + Join(words[1..], sep);
      assert Join(words, sep) == words[0] + rest;
      FieldsConcat(words[0], rest);
      FieldsOfWord(words[0]);
      assert rest[1..] == Join(words[1..], sep);
      FieldsJoin(words[1..], sep);
    }
  }

  function TrimLeft(s: string): string {
    if s != [] && IsSpace(s[0]) then TrimLeft(s[1..]) else s
  }

  function TrimRight(s: string): string {
    if s != [] && IsSpace(s[|s| - 1]) then TrimRight(s[..|s| - 1]) else s
  }

  /** strings.TrimSpace. */
  function TrimSpace(s: string): string {
    TrimRight(TrimLeft(s))
  }

  lemma {:induction false} TrimLeftDrops(s: string) returns (k: nat)
    ensures k <= |s| && TrimLeft(s) == s[k..] && AllSpace(s[..k]) && (k < |s| ==> !IsSpace(s[k]))
  {
    if s != [] && IsSpace(s[0]) {
      k := TrimLeftDrops(s[1..]);
      assert s[1..][k..] == s[k + 1..] && s[..k + 1] == [s[0]] + s[1..][..k];
      k := k + 1;
    } else {
      k := 0;
    }
  }

  lemma {:induction false} TrimRightDrops(s: string) returns (k: nat)
    ensures k <= |s| && TrimRight(s) == s[..k] && AllSpace(s[k..]) && (k > 0 ==> !IsSpace(s[k - 1]))
  {
    if s != [] && IsSpace(s[|s| - 1]) {
      var front := s[..|s| - 1];
      k := TrimRightDrops(front);
      assert front[..k] == s[..k] && s[k..] == front[k..] + [s[|s| - 1]];
    } else {
      k := |s|;
    }
  }

  /** What TrimSpace cuts off is white space, and what it leaves neither starts nor ends with any. */
  lemma TrimSpaceMeaning(s: string) returns (from: nat, to: nat)
    ensures from <= to <= |s| && TrimSpace(s) == s[from..to]
    ensures AllSpace(s[..from]) && AllSpace(s[to..])
    ensures from < to ==> !IsSpace(s[from]) && !IsSpace(s[to - 1])
  {
    from := TrimLeftDrops(s);
    var n := TrimRightDrops(s[from..]);
    to := from + n;
    assert s[from..][..n] == s[from..to] && s[from..][n..] == s[to..];
  }

  lemma BlankIff(s: string)
    ensures TrimSpace(s) == "" <==> AllSpace(s)
  {
    var from, to := TrimSpaceMeaning(s);
    if from == to {
      assert s == s[..from] + s[to..];
    }
  }

  /** The white space code points of Unicode. */
  lemma SpaceTable(c: char)
    ensures var n := c as int;
            IsSpace(c) <==> 9 <= n <= 13 || n == 0x20 || n == 0x85 || n == 0xA0 || n == 0x1680 || 0x2000 <= n <= 0x200A
                            || n == 0x2028 || n == 0x2029 || n == 0x202F || n == 0x205F || n == 0x3000
  {
  }
}
