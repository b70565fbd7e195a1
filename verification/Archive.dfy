/**
 * internal/problem/testcase_archive.go: parsing an uploaded testcase archive. A decoded zip
 * file is a sequence of members; its checksum, strings.ToLower and the order in which Go
 * walks a map are parameters.
 */
module Archive {
  import opened Wrappers
  import opened Sorting
  import opened Text
  import opened NaturalOrder

  const TWO_63 := 0x8000_0000_0000_0000
  const TWO_64 := 0x1_0000_0000_0000_0000

  type U64 = n: nat | n < TWO_64

  /** Go's wrapping arithmetic on uint64, and its conversion to int64. */
  function WrapAdd(a: U64, b: U64): U64 {
    (a + b) % TWO_64
  }

  function WrapSub(a: U64, b: U64): U64 {
    (a - b + TWO_64) % TWO_64
  }

  function ToInt64(n: U64): int {
    if n < TWO_63 then n else n - TWO_64
  }

  type Content = c: seq<bv8> | |c| < TWO_64

  /** A zip member: reading it yields `content` and then the end, or an error if it is not intact. */
  datatype Member = Member(name: string, dir: bool, declared: U64, compressed: U64, content: Content, intact: bool)

  /** `digest` is None when the bytes cannot be read, `members` when they are no zip file. */
  datatype ZipFile = ZipFile(size: int, digest: Option<string>, members: Option<seq<Member>>)

  datatype Options = Options(
    maxBytes: int, maxEntryBytes: U64, maxTotalBytes: U64, maxFiles: int, maxRatio: U64,
    expected: string, keepContents: bool, timeLimit: int, memoryKB: int)

  const ZERO_OPTIONS := Options(0, 0, 0, 0, 0, "", false, 0, 0)

  const MAX_TESTCASE_ARCHIVE_BYTES := 128 * 0x10_0000
  const DEFAULT_MAX_ENTRY_BYTES: U64 := 16 * 0x10_0000
  const DEFAULT_MAX_TOTAL_BYTES: U64 := 128 * 0x10_0000
  const DEFAULT_MAX_FILES := 2048
  const DEFAULT_MAX_RATIO: U64 := 200
  const READ_BUFFER_BYTES := 32 * 1024

  function WithDefaults(o: Options): Options {
    o.(maxBytes := if o.maxBytes <= 0 then MAX_TESTCASE_ARCHIVE_BYTES else o.maxBytes,
       maxEntryBytes := if o.maxEntryBytes == 0 then DEFAULT_MAX_ENTRY_BYTES else o.maxEntryBytes,
       maxTotalBytes := if o.maxTotalBytes == 0 then DEFAULT_MAX_TOTAL_BYTES else o.maxTotalBytes,
       maxFiles := if o.maxFiles == 0 then DEFAULT_MAX_FILES else o.maxFiles,
       maxRatio := if o.maxRatio == 0 then DEFAULT_MAX_RATIO else o.maxRatio)
  }

  datatype Code =
    | ZipInvalid | FileNameInvalid | EntryEmpty | InputMissing | OutputMissing | CaseDuplicate | ArchiveEmpty
    | FileCountExceeded | EntryTooLarge | TotalSizeExceeded | CompressionExceeded | ArchiveTooLarge
    | ArchiveCorrupted | FileIgnored

  datatype Finding = Finding(error: bool, code: Code, file: string)

  function Error(code: Code, file: string): Finding {
    Finding(true, code, file)
  }

  /** HasErrorFindings. */
  predicate HasErrors(findings: seq<Finding>) {
    exists i :: 0 <= i < |findings| && findings[i].error
  }

  /** The ToLower function and the map order of one execution. */
  datatype World = World(lower: string -> string, order: set<string> -> seq<string>)

  ghost predicate Proper(w: World) {
    forall s :: multiset(w.order(s)) == multiset(s)
  }

  // ----- names -----

  function LastIndex(s: string, c: char): (r: int)
    ensures -1 <= r < |s|
    ensures r >= 0 ==> s[r] == c
    ensures forall i | r < i < |s| :: s[i] != c
  {
    if s == [] then -1 else if s[|s| - 1] == c then |s| - 1 else LastIndex(s[..|s| - 1], c)
  }

  datatype Kind = Input | Output

  datatype Slot = Slot(kind: Kind, key: string)

  function Classify(lower: string -> string, name: string): Option<Slot> {
    var base := name[LastIndex(name, '/') + 1..];
    var dot := LastIndex(base, '.');
    if dot <= 0 || dot == |base| - 1 then None
    else
      var extension := lower(base[dot + 1..]);
      if extension == "in" then Some(Slot(Input, base[..dot]))
      else if extension == "ans" || extension == "out" then Some(Slot(Output, base[..dot]))
      else None
  }

  function Normalize(name: string): string {
    MapSeq((c: char) => if c == '\\' then '/' else c, name)
  }

  predicate IgnoredSegment(segment: string) {
    segment != [] && (segment[0] == '.' || segment == "__MACOSX")
  }

  predicate Ignored(name: string) {
    exists k :: 0 <= k < |Split(name, '/')| && IgnoredSegment(Split(name, '/')[k])
  }

  function SlotOf(lower: string -> string, m: Member): Option<Slot> {
    Classify(lower, Normalize(m.name))
  }

  // ----- budgets -----

  predicate CompressionRatioExceeded(uncompressed: U64, compressed: U64, maxRatio: U64) {
    if maxRatio == 0 || uncompressed == 0 then false
    else if compressed == 0 then true
    else if compressed > (TWO_64 - 1) / maxRatio then false
    else uncompressed > (compressed * maxRatio) % TWO_64
  }

  /** The guard on a running total, without a sum that could wrap. */
  predicate OverTotal(size: U64, total: U64, max: U64) {
    size > max || total > WrapSub(max, size)
  }

  datatype ReadOutcome = ReadTooLarge | ReadFailed | ReadOk(kept: Content, size: U64)

  function Read(m: Member, keep: bool, maxBytes: U64): ReadOutcome {
    if |m.content| > maxBytes then ReadTooLarge
    else if !m.intact then ReadFailed
    else ReadOk(if keep then m.content else [], |m.content|)
  }

  /** Reads through a buffer, in pieces of any size the reader likes. */
  method ReadArchiveEntry(m: Member, keep: bool, maxBytes: U64) returns (r: ReadOutcome)
    ensures r == Read(m, keep, maxBytes)
  {
    var kept: Content := [];
    var total: U64 := 0;
    while total < |m.content|
      invariant total <= |m.content| && total <= maxBytes
      invariant kept == if keep then m.content[..total] else []
    {
      var n: nat :| 1 <= n <= READ_BUFFER_BYTES && total + n <= |m.content| by { assert 1 <= 1 <= READ_BUFFER_BYTES && total + 1 <= |m.content|; }
      var piece := m.content[total..total + n];
      total := WrapAdd(total, n);
      if total > maxBytes {
        return ReadTooLarge;
      }
      if keep {
        assert m.content[..total] == m.content[..total - n] + piece;
        kept := kept + piece;
      }
    }
    assert m.content[..|m.content|] == m.content;
    if !m.intact {
      return ReadFailed;
    }
    return ReadOk(kept, total);
  }

  // ----- what happens to one member -----

  datatype Entry = Entry(name: string, size: int, content: Content)

  datatype Disposition =
    | Directory
    | Reported(finding: Finding)
    | OverBudget(code: Code, slot: Slot)
    | Unusable(code: Code)
    | Usable(slot: Slot, kept: Content, size: U64)

  datatype ParseState = ParseState(
    inputs: map<string, Entry>, outputs: map<string, Entry>,
    declaredTotal: U64, actualTotal: U64, fileCount: nat, findings: seq<Finding>)

  const EMPTY_STATE := ParseState(map[], map[], 0, 0, 0, [])

  function AfterRead(st: ParseState, m: Member, o: Options, slot: Slot): Disposition {
    match Read(m, o.keepContents, o.maxEntryBytes)
    case ReadTooLarge => Unusable(EntryTooLarge)
    case ReadFailed => Unusable(ZipInvalid)
    case ReadOk(kept, size) =>
      if size == 0 then Unusable(EntryEmpty)
      else if OverTotal(size, st.actualTotal, o.maxTotalBytes) then Unusable(TotalSizeExceeded)
      else Usable(slot, kept, size)
  }

  /** The checks on declared sizes come before reading. */
  function DisposeNamed(st: ParseState, m: Member, o: Options, slot: Slot): Disposition {
    if m.declared > o.maxEntryBytes then OverBudget(EntryTooLarge, slot)
    else if OverTotal(m.declared, st.declaredTotal, o.maxTotalBytes) then OverBudget(TotalSizeExceeded, slot)
    else if CompressionRatioExceeded(m.declared, m.compressed, o.maxRatio) then OverBudget(CompressionExceeded, slot)
    else AfterRead(st, m, o, slot)
  }

  function Dispose(lower: string -> string, st: ParseState, m: Member, o: Options): Disposition {
    if m.dir then Directory
    else if st.fileCount + 1 > o.maxFiles then Reported(Error(FileCountExceeded, m.name))
    else if Ignored(Normalize(m.name)) then Reported(Finding(false, FileIgnored, m.name))
    else
      match SlotOf(lower, m)
      case None => Reported(Error(FileNameInvalid, m.name))
      case Some(slot) => DisposeNamed(st, m, o, slot)
  }

  /** recordArchiveEntry: the first member of a slot stays. */
  function Record(st: ParseState, slot: Slot, entry: Entry): ParseState {
    var target := if slot.kind.Output? then st.outputs else st.inputs;
    if slot.key in target then st.(findings := st.findings + [Error(CaseDuplicate, entry.name)])
    else if slot.kind.Output? then st.(outputs := target[slot.key := entry])
    else st.(inputs := target[slot.key := entry])
  }

  function Report(st: ParseState, f: Finding): ParseState {
    st.(findings := st.findings + [f])
  }

  function Step(lower: string -> string, st: ParseState, m: Member, o: Options): ParseState {
    Apply(st, m, Dispose(lower, st, m, o))
  }

  function Apply(st: ParseState, m: Member, d: Disposition): ParseState {
    var counted := st.(fileCount := st.fileCount + 1);
    match d
    case Directory => st
    case Reported(finding) => Report(counted, finding)
    case OverBudget(code, slot) => Record(Report(counted, Error(code, m.name)), slot, Entry(m.name, ToInt64(m.declared), []))
    case Unusable(code) =>
      Report(counted.(declaredTotal := WrapAdd(st.declaredTotal, m.declared)), Error(code, m.name))
    case Usable(slot, kept, size) =>
      Record(counted.(declaredTotal := WrapAdd(st.declaredTotal, m.declared), actualTotal := WrapAdd(st.actualTotal, size)),
             slot, Entry(m.name, ToInt64(size), kept))
  }

  function Fold(lower: string -> string, members: seq<Member>, o: Options): ParseState {
    if members == [] then EMPTY_STATE
    else Step(lower, Fold(lower, members[..|members| - 1], o), members[|members| - 1], o)
  }

  // ----- pairs -----

  datatype ArchiveCase = ArchiveCase(key: string, inputPath: string, outputPath: string, inputSize: int, outputSize: int)

  datatype Testcase = Testcase(id: int, input: Content, output: Content, timeLimit: int, memoryKB: int)

  datatype ParseResult = ParseResult(findings: seq<Finding>, cases: seq<ArchiveCase>, testcases: seq<Testcase>)

  function Unmatched(keys: seq<string>, entries: map<string, Entry>, others: map<string, Entry>, code: Code): seq<Finding> {
    if keys == [] then []
    else
      Unmatched(keys[..|keys| - 1], entries, others, code)
      + if keys[|keys| - 1] in others || keys[|keys| - 1] !in entries then [] else [Error(code, entries[keys[|keys| - 1]].name)]
  }

  function InBoth(inputs: map<string, Entry>, outputs: map<string, Entry>): string -> bool {
    (key: string) => key in inputs && key in outputs
  }

  function CaseOf(key: string, input: Entry, output: Entry): ArchiveCase {
    ArchiveCase(key, input.name, output.name, input.size, output.size)
  }

  function CasesOf(keys: seq<string>, inputs: map<string, Entry>, outputs: map<string, Entry>): (r: seq<ArchiveCase>)
    requires forall k | 0 <= k < |keys| :: keys[k] in inputs && keys[k] in outputs
    ensures |r| == |keys|
  {
    seq(|keys|, k requires 0 <= k < |keys| => CaseOf(keys[k], inputs[keys[k]], outputs[keys[k]]))
  }

  function TestcasesOf(keys: seq<string>, inputs: map<string, Entry>, outputs: map<string, Entry>, o: Options): (r: seq<Testcase>)
    requires forall k | 0 <= k < |keys| :: keys[k] in inputs && keys[k] in outputs
    ensures |r| == |keys|
  {
    seq(|keys|, k requires 0 <= k < |keys| => Testcase(k + 1, inputs[keys[k]].content, outputs[keys[k]].content, o.timeLimit, o.memoryKB))
  }

  /** The keys of the pairs, in natural order. */
  function PairKeys(w: World, inputs: map<string, Entry>, outputs: map<string, Entry>): (keys: seq<string>)
    ensures forall k | 0 <= k < |keys| :: keys[k] in inputs && keys[k] in outputs
  {
    var both := Filter(InBoth(inputs, outputs), w.order(inputs.Keys));
    SameMembers(both, Sort(NaturalAtMost(w.lower), both));
    assert forall k | 0 <= k < |Sort(NaturalAtMost(w.lower), both)| :: Sort(NaturalAtMost(w.lower), both)[k] in both;
    Sort(NaturalAtMost(w.lower), both)
  }

  function Finish(w: World, st: ParseState, o: Options): ParseResult {
    var findings := st.findings
      + Unmatched(w.order(st.inputs.Keys), st.inputs, st.outputs, OutputMissing)
      + Unmatched(w.order(st.outputs.Keys), st.outputs, st.inputs, InputMissing);
    var keys := PairKeys(w, st.inputs, st.outputs);
    if keys == [] then ParseResult(findings + [Error(ArchiveEmpty, "")], [], [])
    else ParseResult(findings, CasesOf(keys, st.inputs, st.outputs), TestcasesOf(keys, st.inputs, st.outputs, o))
  }

  // ----- the archive -----

  function AsciiLower(c: char): char {
    if 'A' <= c <= 'Z' then c - 'A' + 'a' else c
  }

  /** strings.EqualFold against a hexadecimal digest. */
  predicate EqualFold(a: string, b: string) {
    |a| == |b| && forall i | 0 <= i < |a| :: AsciiLower(a[i]) == AsciiLower(b[i])
  }

  /** What stops the parser before it looks at a member. */
  function Rejection(z: ZipFile, o: Options): (r: Option<Code>)
    ensures r.None? ==> z.members.Some?
  {
    var expected := TrimSpace(o.expected);
    if z.size <= 0 then Some(ZipInvalid)
    else if z.size > o.maxBytes then Some(ArchiveTooLarge)
    else if expected != "" && (z.digest.None? || !EqualFold(expected, z.digest.value)) then Some(ArchiveCorrupted)
    else if z.members.None? then Some(ZipInvalid)
    else None
  }

  function Parse(w: World, z: ZipFile, options: Options): ParseResult {
    var o := WithDefaults(options);
    match Rejection(z, o)
    case Some(code) => ParseResult([Error(code, "")], [], [])
    case None => Finish(w, Fold(w.lower, z.members.value, o), o)
  }

  // ----- the loops of parseArchive -----

  method RecordArchiveEntry(st: ParseState, slot: Slot, entry: Entry) returns (r: ParseState)
    ensures r == Record(st, slot, entry)
  {
    r := st;
    var target := st.inputs;
    if slot.kind == Output {
      target := st.outputs;
    }
    if slot.key in target {
      r := r.(findings := r.findings + [Error(CaseDuplicate, entry.name)]);
      return;
    }
    target := target[slot.key := entry];
    if slot.kind == Output {
      r := r.(outputs := target);
    } else {
      r := r.(inputs := target);
    }
  }

  /** A member that was named and within its declared budgets: read it and keep it. */
  method ReadMember(st: ParseState, slot: Slot, m: Member, o: Options) returns (r: ParseState)
    ensures r == match AfterRead(st, m, o, slot)
                 case Usable(_, kept, size) =>
                   Record(st.(actualTotal := WrapAdd(st.actualTotal, size)), slot, Entry(m.name, ToInt64(size), kept))
                 case d => Report(st, Error(if d.Unusable? then d.code else ZipInvalid, m.name))
  {
    var read := ReadArchiveEntry(m, o.keepContents, o.maxEntryBytes);
    if read.ReadTooLarge? {
      return Report(st, Error(EntryTooLarge, m.name));
    }
    if read.ReadFailed? {
      return Report(st, Error(ZipInvalid, m.name));
    }
    if read.size == 0 {
      return Report(st, Error(EntryEmpty, m.name));
    }
    if read.size > o.maxTotalBytes || st.actualTotal > WrapSub(o.maxTotalBytes, read.size) {
      return Report(st, Error(TotalSizeExceeded, m.name));
    }
    var counted := st.(actualTotal := WrapAdd(st.actualTotal, read.size));
    r := RecordArchiveEntry(counted, slot, Entry(m.name, ToInt64(read.size), read.kept));
  }

  /** The body of the loop over the members. */
  method ParseMember(lower: string -> string, st: ParseState, m: Member, o: Options) returns (r: ParseState)
    ensures r == Step(lower, st, m, o)
  {
    r := st;
    if m.dir {
      return;
    }
    r := r.(fileCount := r.fileCount + 1);
    if r.fileCount > o.maxFiles {
      return Report(r, Error(FileCountExceeded, m.name));
    }
    var name := Normalize(m.name);
    if Ignored(name) {
      return Report(r, Finding(false, FileIgnored, m.name));
    }
    var classified := Classify(lower, name);
    if classified.None? {
      return Report(r, Error(FileNameInvalid, m.name));
    }
    var slot := classified.value;
    var overBudget := None;
    if m.declared > o.maxEntryBytes {
      overBudget := Some(EntryTooLarge);
    } else if m.declared > o.maxTotalBytes || r.declaredTotal > WrapSub(o.maxTotalBytes, m.declared) {
      overBudget := Some(TotalSizeExceeded);
    } else if CompressionRatioExceeded(m.declared, m.compressed, o.maxRatio) {
      overBudget := Some(CompressionExceeded);
    }
    if overBudget.Some? {
      r := Report(r, Error(overBudget.value, m.name));
      r := RecordArchiveEntry(r, slot, Entry(m.name, ToInt64(m.declared), []));
      return;
    }
    r := r.(declaredTotal := WrapAdd(r.declaredTotal, m.declared));
    r := ReadMember(r, slot, m, o);
  }

  method ParseMembers(lower: string -> string, members: seq<Member>, o: Options) returns (st: ParseState)
    ensures st == Fold(lower, members, o)
  {
    st := EMPTY_STATE;
    assert members[..0] == [];
    for i := 0 to |members|
      invariant st == Fold(lower, members[..i], o)
    {
      assert members[..i + 1][..i] == members[..i];
      st := ParseMember(lower, st, members[i], o);
    }
    assert members[..|members|] == members;
  }

  method ReportUnmatched(keys: seq<string>, entries: map<string, Entry>, others: map<string, Entry>, code: Code) returns (findings: seq<Finding>)
    ensures findings == Unmatched(keys, entries, others, code)
  {
    findings := [];
    for i := 0 to |keys|
      invariant findings == Unmatched(keys[..i], entries, others, code)
    {
      assert keys[..i + 1][..i] == keys[..i];
      if keys[i] !in others && keys[i] in entries {
        findings := findings + [Error(code, entries[keys[i]].name)];
      }
    }
    assert keys[..|keys|] == keys;
  }

  method ListCases(keys: seq<string>, inputs: map<string, Entry>, outputs: map<string, Entry>, o: Options)
    returns (cases: seq<ArchiveCase>, testcases: seq<Testcase>)
    requires forall k | 0 <= k < |keys| :: keys[k] in inputs && keys[k] in outputs
    ensures cases == CasesOf(keys, inputs, outputs) && testcases == TestcasesOf(keys, inputs, outputs, o)
  {
    cases, testcases := [], [];
    for index := 0 to |keys|
      invariant |cases| == |testcases| == index
      invariant forall k | 0 <= k < index :: cases[k] == CasesOf(keys, inputs, outputs)[k]
      invariant forall k | 0 <= k < index :: testcases[k] == TestcasesOf(keys, inputs, outputs, o)[k]
    {
      var input, output := inputs[keys[index]], outputs[keys[index]];
      cases := cases + [ArchiveCase(keys[index], input.name, output.name, input.size, output.size)];
      testcases := testcases + [Testcase(index + 1, input.content, output.content, o.timeLimit, o.memoryKB)];
    }
  }

  method ParseArchive(w: World, z: ZipFile, options: Options) returns (r: ParseResult)
    ensures r == Parse(w, z, options)
  {
    var o := WithDefaults(options);
    var rejected := Rejection(z, o);
    if rejected.Some? {
      return ParseResult([Error(rejected.value, "")], [], []);
    }
    var st := ParseMembers(w.lower, z.members.value, o);
    var missingOutputs := ReportUnmatched(w.order(st.inputs.Keys), st.inputs, st.outputs, OutputMissing);
    var missingInputs := ReportUnmatched(w.order(st.outputs.Keys), st.outputs, st.inputs, InputMissing);
    var findings := st.findings + missingOutputs + missingInputs;
    var keys := PairKeys(w, st.inputs, st.outputs);
    if keys == [] {
      return ParseResult(findings + [Error(ArchiveEmpty, "")], [], []);
    }
    var cases, testcases := ListCases(keys, st.inputs, st.outputs, o);
    return ParseResult(findings, cases, testcases);
  }

  method ValidateArchive(w: World, z: ZipFile) returns (cases: seq<ArchiveCase>, findings: seq<Finding>)
    ensures var p := Parse(w, z, ZERO_OPTIONS); cases == p.cases && findings == p.findings
  {
    var p := ParseArchive(w, z, ZERO_OPTIONS);
    return p.cases, p.findings;
  }

  method VerifyArchive(w: World, z: ZipFile, expected: string) returns (cases: seq<ArchiveCase>, findings: seq<Finding>)
    ensures var p := Parse(w, z, ZERO_OPTIONS.(expected := expected)); cases == p.cases && findings == p.findings
  {
    var p := ParseArchive(w, z, ZERO_OPTIONS.(expected := expected));
    return p.cases, p.findings;
  }

  method LoadArchive(w: World, z: ZipFile, options: Options) returns (testcases: seq<Testcase>, findings: seq<Finding>)
    ensures var p := Parse(w, z, options.(keepContents := true)); testcases == p.testcases && findings == p.findings
  {
    var p := ParseArchive(w, z, options.(keepContents := true));
    return p.testcases, p.findings;
  }
}
