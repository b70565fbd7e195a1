/**
 * internal/submission/testcase_cache.go: parsed testcase sets in memory, bounded in bytes,
 * least recently used out first. A Go slice is an array here, so that sharing one shows.
 */
module TestcaseCache {
  import opened Wrappers
  import opened Sorting
  import opened Sums
  import opened Text
  import opened Archive
  import opened ArchiveMeaning
  import opened ArchiveResults

  // ----- what the cache holds, as a list -----

  datatype Key = Key(id: int, hash: string)

  datatype Line = Line(key: Key, cases: seq<Testcase>)

  /** testcaseBytes. */
  function BytesOf(cases: seq<Testcase>): nat {
    if cases == [] then 0 else BytesOf(cases[..|cases| - 1]) + |cases[|cases| - 1].input| + |cases[|cases| - 1].output|
  }

  /** Every case counts with its input and its output. */
  lemma {:induction false} BytesOfIsSum(cases: seq<Testcase>)
    ensures BytesOf(cases) == Sum((x: Testcase) => |x.input| + |x.output|, cases)
  {
    if cases != [] {
      var front, last := cases[..|cases| - 1], cases[|cases| - 1];
      BytesOfIsSum(front);
      SumAppend((x: Testcase) => |x.input| + |x.output|, front, last);
      assert cases == front + [last];
    }
  }

  function Bytes(lines: seq<Line>): nat {
    if lines == [] then 0 else Bytes(lines[..|lines| - 1]) + BytesOf(lines[|lines| - 1].cases)
  }

  predicate Has(lines: seq<Line>, key: Key) {
    exists i :: 0 <= i < |lines| && lines[i].key == key
  }

  function Position(lines: seq<Line>, key: Key): (i: nat)
    requires Has(lines, key)
    ensures i < |lines| && lines[i].key == key
    ensures forall j | 0 <= j < i :: lines[j].key != key
  {
    if lines[0].key == key then 0 else 1 + Position(lines[1..], key)
  }

  /** The line used last comes first. */
  function Touched(lines: seq<Line>, key: Key): seq<Line> {
    if !Has(lines, key) then lines
    else
      var i := Position(lines, key);
      [lines[i]] + lines[..i] + lines[i + 1..]
  }

  /** Lines leave from the back until `need` more bytes fit. */
  function Evict(lines: seq<Line>, need: nat, max: nat): seq<Line> {
    if lines != [] && Bytes(lines) + need > max then Evict(lines[..|lines| - 1], need, max) else lines
  }

  function Stored(lines: seq<Line>, line: Line, max: nat): seq<Line> {
    if BytesOf(line.cases) > max || Has(lines, line.key) then lines
    else [line] + Evict(lines, BytesOf(line.cases), max)
  }

  ghost predicate Distinct(lines: seq<Line>) {
    forall i, j | 0 <= i < j < |lines| :: lines[i].key != lines[j].key
  }

  lemma {:induction false} BytesConcat(a: seq<Line>, b: seq<Line>)
    ensures Bytes(a + b) == Bytes(a) + Bytes(b)
  {
    if b == [] {
      assert a + b == a;
    } else {
      assert (a + b)[..|a + b| - 1] == a + b[..|b| - 1];
      BytesConcat(a, b[..|b| - 1]);
    }
  }

  lemma BytesOfLine(line: Line)
    ensures Bytes([line]) == BytesOf(line.cases)
  {
    assert [line][..0] == [];
    assert Bytes([]) == 0;
  }

  /** Eviction keeps a prefix: the longest that leaves room. */
  lemma {:induction false} EvictsShortestSuffix(lines: seq<Line>, need: nat, max: nat) returns (k: nat)
    requires need <= max
    ensures k <= |lines| && Evict(lines, need, max) == lines[..k]
    ensures Bytes(lines[..k]) + need <= max
    ensures forall l | k < l <= |lines| :: Bytes(lines[..l]) + need > max
  {
    if lines != [] && Bytes(lines) + need > max {
      var front := lines[..|lines| - 1];
      k := EvictsShortestSuffix(front, need, max);
      assert lines[..k] == front[..k];
      forall l | k < l <= |lines| ensures Bytes(lines[..l]) + need > max {
        assert l < |lines| ==> lines[..l] == front[..l];
        assert l == |lines| ==> lines[..l] == lines;
      }
    } else {
      k := |lines|;
      assert lines[..k] == lines;
    }
  }

  /** Storing keeps the bound, drops a shortest tail of older lines, and changes nothing else. */
  lemma StoredMeaning(lines: seq<Line>, line: Line, max: nat) returns (k: nat)
    requires Distinct(lines) && Bytes(lines) <= max
    ensures Distinct(Stored(lines, line, max)) && Bytes(Stored(lines, line, max)) <= max
    ensures BytesOf(line.cases) > max || Has(lines, line.key) ==> Stored(lines, line, max) == lines
    ensures BytesOf(line.cases) <= max && !Has(lines, line.key) ==>
              && k <= |lines| && Stored(lines, line, max) == [line] + lines[..k]
              && forall l | k < l <= |lines| :: Bytes(lines[..l]) + BytesOf(line.cases) > max
  {
    k := 0;
    if BytesOf(line.cases) <= max && !Has(lines, line.key) {
      k := EvictsShortestSuffix(lines, BytesOf(line.cases), max);
      BytesConcat([line], lines[..k]);
      BytesOfLine(line);
      var r := [line] + lines[..k];
      forall i, j | 0 <= i < j < |r| ensures r[i].key != r[j].key {
        assert r[j] == lines[j - 1];
      }
    }
  }

  lemma BytesSwap(a: seq<Line>, x: Line, b: seq<Line>)
    ensures Bytes([x] + a + b) == Bytes(a + [x] + b)
  {
    BytesConcat([x] + a, b);
    BytesConcat([x], a);
    BytesConcat(a + [x], b);
    BytesConcat(a, [x]);
  }

  lemma LinesSwap(a: seq<Line>, x: Line, b: seq<Line>)
    requires Distinct(a + [x] + b)
    ensures Distinct([x] + a + b) && multiset([x] + a + b) == multiset(a + [x] + b)
  {
    var r, s := [x] + a + b, a + [x] + b;
    forall j, k | 0 <= j < k < |r| ensures r[j].key != r[k].key {
      var m := if j == 0 then |a| else if j <= |a| then j - 1 else j;
      var n := if k <= |a| then k - 1 else k;
      assert r[j] == s[m] && r[k] == s[n] && m != n;
    }
  }

  /** Touching permutes the lines. */
  lemma TouchedMeaning(lines: seq<Line>, key: Key)
    requires Distinct(lines)
    ensures Distinct(Touched(lines, key)) && Bytes(Touched(lines, key)) == Bytes(lines)
    ensures multiset(Touched(lines, key)) == multiset(lines)
    ensures Has(lines, key) ==> Touched(lines, key)[0].key == key
  {
    if Has(lines, key) {
      var i := Position(lines, key);
      assert lines == lines[..i] + [lines[i]] + lines[i + 1..];
      BytesSwap(lines[..i], lines[i], lines[i + 1..]);
      LinesSwap(lines[..i], lines[i], lines[i + 1..]);
    }
  }

  // ----- the cache itself -----

  datatype CacheEntry = CacheEntry(key: Key, cases: array<Testcase>, bytes: nat)

  method CloneTestcases(cases: array<Testcase>) returns (copy: array<Testcase>)
    ensures fresh(copy) && copy[..] == cases[..]
  {
    copy := new Testcase[cases.Length](i requires 0 <= i < cases.Length reads cases => cases[i]);
    assert copy[..] == cases[..];
  }

  method TestcaseBytes(cases: array<Testcase>) returns (size: nat)
    ensures size == BytesOf(cases[..])
  {
    size := 0;
    for i := 0 to cases.Length
      invariant size == BytesOf(cases[..i])
    {
      assert cases[..i + 1][..i] == cases[..i];
      size := size + |cases[i].input| + |cases[i].output|;
    }
    assert cases[..cases.Length] == cases[..];
  }

  /** Map and list hold the same entries, one per key. */
  ghost predicate Agree(entries: map<Key, CacheEntry>, lru: seq<CacheEntry>) {
    && (forall i, j | 0 <= i < j < |lru| :: lru[i].key != lru[j].key)
    && (forall i | 0 <= i < |lru| :: lru[i].key in entries && entries[lru[i].key] == lru[i])
    && |entries| == |lru|
  }

  function KeysOf(lru: seq<CacheEntry>): (r: set<Key>)
    ensures forall key :: key in r <==> exists i :: 0 <= i < |lru| && lru[i].key == key
  {
    set i | 0 <= i < |lru| :: lru[i].key
  }

  lemma {:induction false} KeysCounted(lru: seq<CacheEntry>)
    requires forall i, j | 0 <= i < j < |lru| :: lru[i].key != lru[j].key
    ensures |KeysOf(lru)| == |lru|
  {
    if lru != [] {
      var last := |lru| - 1;
      KeysCounted(lru[..last]);
      assert KeysOf(lru) == KeysOf(lru[..last]) + {lru[last].key};
    }
  }

  lemma SubsetOfSameSize(a: set<Key>, b: set<Key>)
    requires a <= b && |a| == |b|
    ensures a == b
  {
    assert b == a + (b - a) && |b| == |a| + |b - a|;
  }

  /** The map's keys are exactly those in the list. */
  lemma AgreeMeaning(entries: map<Key, CacheEntry>, lru: seq<CacheEntry>, key: Key)
    requires Agree(entries, lru)
    ensures key in entries <==> exists i :: 0 <= i < |lru| && lru[i].key == key && entries[key] == lru[i]
  {
    KeysCounted(lru);
    assert |entries.Keys| == |entries|;
    forall k | k in KeysOf(lru) ensures k in entries.Keys {
    }
    SubsetOfSameSize(KeysOf(lru), entries.Keys);
    if key in entries {
      assert key in KeysOf(lru);
      var i :| 0 <= i < |lru| && lru[i].key == key;
      assert entries[lru[i].key] == lru[i];
    }
  }

  function Moved<T>(s: seq<T>, i: nat): (r: seq<T>)
    requires i < |s|
    ensures |r| == |s|
  {
    [s[i]] + s[..i] + s[i + 1..]
  }

  lemma AgreeMoved(entries: map<Key, CacheEntry>, lru: seq<CacheEntry>, i: nat)
    requires Agree(entries, lru) && i < |lru|
    ensures Agree(entries, Moved(lru, i))
  {
  }

  lemma AgreeWithoutLast(entries: map<Key, CacheEntry>, lru: seq<CacheEntry>)
    requires Agree(entries, lru) && lru != []
    ensures Agree(entries - {lru[|lru| - 1].key}, lru[..|lru| - 1])
  {
    var key := lru[|lru| - 1].key;
    assert (entries - {key}).Keys == entries.Keys - {key};
    assert |(entries - {key}).Keys| == |entries - {key}|;
    assert |entries.Keys| == |entries|;
  }

  lemma AgreeWithFirst(entries: map<Key, CacheEntry>, lru: seq<CacheEntry>, entry: CacheEntry)
    requires Agree(entries, lru) && entry.key !in entries
    ensures Agree(entries[entry.key := entry], [entry] + lru)
  {
    assert |entries[entry.key := entry]| == |entries| + 1;
  }

  lemma TouchedIsMoved(lines: seq<Line>, i: nat)
    requires Distinct(lines) && i < |lines|
    ensures Touched(lines, lines[i].key) == Moved(lines, i)
  {
    assert Position(lines, lines[i].key) == i;
  }

  /** The list's entries are the lines, and their slices are among `owned`. */
  ghost predicate Tied(lru: seq<CacheEntry>, lines: seq<Line>, owned: set<array<Testcase>>)
    reads owned
  {
    && |lines| == |lru|
    && forall i | 0 <= i < |lru| ::
         && lru[i].cases in owned && lines[i] == Line(lru[i].key, lru[i].cases[..])
         && lru[i].bytes == BytesOf(lines[i].cases)
  }

  lemma TiedMoved(lru: seq<CacheEntry>, lines: seq<Line>, owned: set<array<Testcase>>, i: nat)
    requires Tied(lru, lines, owned) && i < |lru|
    ensures Tied(Moved(lru, i), Moved(lines, i), owned)
  {
    forall k | 0 <= k < |lru|
      ensures exists from :: 0 <= from < |lru| && Moved(lru, i)[k] == lru[from] && Moved(lines, i)[k] == lines[from]
    {
      var from := if k == 0 then i else if k <= i then k - 1 else k;
      assert Moved(lru, i)[k] == lru[from] && Moved(lines, i)[k] == lines[from];
    }
  }

  lemma TiedDistinct(entries: map<Key, CacheEntry>, lru: seq<CacheEntry>, lines: seq<Line>, owned: set<array<Testcase>>)
    requires Agree(entries, lru) && Tied(lru, lines, owned)
    ensures Distinct(lines)
  {
  }

  /** Map and list agree; the counter is the size of the lines and within the bound. */
  ghost predicate Consistent(entries: map<Key, CacheEntry>, lru: seq<CacheEntry>, currentBytes: int, maxBytes: nat, lines: seq<Line>, owned: set<array<Testcase>>)
    reads owned
  {
    Agree(entries, lru) && Tied(lru, lines, owned) && currentBytes == Bytes(lines) <= maxBytes
  }

  /** Everything about moving entry `i` to the front. */
  lemma MoveKeeps(entries: map<Key, CacheEntry>, lru: seq<CacheEntry>, currentBytes: int, maxBytes: nat, lines: seq<Line>, owned: set<array<Testcase>>, i: nat)
    requires Consistent(entries, lru, currentBytes, maxBytes, lines, owned) && i < |lru|
    ensures |lines| == |lru| && Consistent(entries, Moved(lru, i), currentBytes, maxBytes, Moved(lines, i), owned)
    ensures Moved(lines, i) == Touched(lines, lru[i].key)
  {
    AgreeMoved(entries, lru, i);
    TiedMoved(lru, lines, owned, i);
    TiedDistinct(entries, lru, lines, owned);
    assert lru[i].key == lines[i].key;
    TouchedIsMoved(lines, i);
    TouchedMeaning(lines, lines[i].key);
  }

  lemma DropKeeps(entries: map<Key, CacheEntry>, lru: seq<CacheEntry>, lines: seq<Line>, owned: set<array<Testcase>>)
    requires Agree(entries, lru) && Tied(lru, lines, owned) && lru != []
    ensures var last := |lru| - 1;
            && |lines| == |lru| && Agree(entries - {lru[last].key}, lru[..last]) && Tied(lru[..last], lines[..last], owned)
            && Bytes(lines[..last]) == Bytes(lines) - lru[last].bytes
  {
    AgreeWithoutLast(entries, lru);
  }

  lemma InsertKeeps(entries: map<Key, CacheEntry>, lru: seq<CacheEntry>, lines: seq<Line>, owned: set<array<Testcase>>, entry: CacheEntry, line: Line)
    requires Agree(entries, lru) && Tied(lru, lines, owned) && entry.key !in entries
    requires line == Line(entry.key, entry.cases[..]) && entry.bytes == BytesOf(line.cases)
    ensures Agree(entries[entry.key := entry], [entry] + lru) && Tied([entry] + lru, [line] + lines, owned + {entry.cases})
    ensures Bytes([line] + lines) == Bytes(lines) + entry.bytes
  {
    AgreeWithFirst(entries, lru, entry);
    BytesConcat([line], lines);
    BytesOfLine(line);
  }

  // ----- references to stored archives -----

  datatype Ref = Ref(id: int, checksum: string, storageKey: string, caseCount: int, timeLimit: int, memoryKB: int)

  datatype Fault = BadReference | DownloadFailed | BadArchive

  function Lowered(s: string): string {
    MapSeq(AsciiLower, s)
  }

  predicate GoodRef(ref: Ref) {
    ref.id > 0 && TrimSpace(ref.checksum) != "" && TrimSpace(ref.storageKey) != "" && ref.caseCount > 0
  }

  /** testcaseCacheKeyFromRef of a good reference. */
  function KeyOf(ref: Ref): Key {
    Key(ref.id, Lowered(TrimSpace(ref.checksum)))
  }

  function LoadOptions(ref: Ref): Options {
    ZERO_OPTIONS.(expected := ref.checksum, keepContents := true, timeLimit := ref.timeLimit, memoryKB := ref.memoryKB)
  }

  /** A reference is refused exactly if its id or case count is not positive, or its checksum or key is white space. */
  lemma BadRefIff(ref: Ref)
    ensures !GoodRef(ref) <==> ref.id <= 0 || ref.caseCount <= 0 || AllSpace(ref.checksum) || AllSpace(ref.storageKey)
  {
    BlankIff(ref.checksum);
    BlankIff(ref.storageKey);
  }

  /** Two references share a line exactly if they agree on the id and, up to case and outer space, on the checksum. */
  lemma SharedLineIff(a: Ref, b: Ref)
    ensures KeyOf(a) == KeyOf(b) <==> a.id == b.id && EqualFold(TrimSpace(a.checksum), TrimSpace(b.checksum))
  {
    FoldedChecksums(TrimSpace(a.checksum), TrimSpace(b.checksum));
  }

  /** The cases of one archive carry the limits of the reference it was parsed for. */
  lemma ParsedLimits(w: World, z: ZipFile, ref: Ref)
    ensures var cases := Parse(w, z, LoadOptions(ref)).testcases;
            forall k | 0 <= k < |cases| :: cases[k].id == k + 1 && cases[k].timeLimit == ref.timeLimit && cases[k].memoryKB == ref.memoryKB
  {
  }

  /** `library` names the one archive with a given checksum; a downloaded archive is the one with its own. */
  ghost predicate Genuine(library: string -> ZipFile, z: ZipFile) {
    z.digest.Some? ==> Lowered(z.digest.value) == z.digest.value && library(z.digest.value) == z
  }

  /** Each line holds what parsing the archive with its checksum gives. */
  ghost predicate Authentic(home: World, library: string -> ZipFile, lines: seq<Line>) {
    forall i | 0 <= i < |lines| ::
      && !HasErrors(Parse(home, library(lines[i].key.hash), JUDGE_OPTIONS).findings)
      && WithoutLimits(lines[i].cases) == Parse(home, library(lines[i].key.hash), JUDGE_OPTIONS).testcases
  }

  /** The cases are those of the archive a reference names. */
  ghost predicate Serves(home: World, library: string -> ZipFile, ref: Ref, cases: seq<Testcase>) {
    && !HasErrors(Parse(home, library(KeyOf(ref).hash), JUDGE_OPTIONS).findings)
    && WithoutLimits(cases) == Parse(home, library(KeyOf(ref).hash), JUDGE_OPTIONS).testcases
  }

  lemma ServesIsAuthentic(home: World, library: string -> ZipFile, ref: Ref, cases: seq<Testcase>)
    ensures Serves(home, library, ref, cases) <==> Authentic(home, library, [Line(KeyOf(ref), cases)])
  {
    assert [Line(KeyOf(ref), cases)][0] == Line(KeyOf(ref), cases);
  }

  lemma LineServes(home: World, library: string -> ZipFile, ref: Ref, lines: seq<Line>)
    requires Authentic(home, library, lines) && Has(lines, KeyOf(ref))
    ensures Serves(home, library, ref, lines[Position(lines, KeyOf(ref))].cases)
  {
  }

  lemma FoldedChecksums(a: string, b: string)
    ensures EqualFold(a, b) <==> Lowered(a) == Lowered(b)
  {
    if Lowered(a) == Lowered(b) {
      forall i | 0 <= i < |a| ensures AsciiLower(a[i]) == AsciiLower(b[i]) {
        assert Lowered(a)[i] == Lowered(b)[i];
      }
    }
  }

  /** A clean load makes an authentic line. */
  lemma LoadIsAuthentic(w: World, home: World, library: string -> ZipFile, z: ZipFile, ref: Ref)
    requires Proper(w) && Proper(home) && w.lower == home.lower && Genuine(library, z)
    requires GoodRef(ref) && !HasErrors(Parse(w, z, LoadOptions(ref)).findings)
    ensures Serves(home, library, ref, Parse(w, z, LoadOptions(ref)).testcases)
  {
    AcceptedIff(w, z, LoadOptions(ref));
    FoldedChecksums(TrimSpace(ref.checksum), z.digest.value);
    assert library(KeyOf(ref).hash) == z;
    LoadsTheObject(w, home, z, LoadOptions(ref));
  }

  lemma AuthenticTouched(home: World, library: string -> ZipFile, lines: seq<Line>, key: Key)
    requires Authentic(home, library, lines) && Distinct(lines)
    ensures Authentic(home, library, Touched(lines, key))
  {
    TouchedMeaning(lines, key);
    SameMembers(lines, Touched(lines, key));
    forall i | 0 <= i < |Touched(lines, key)| ensures Touched(lines, key)[i] in lines {
      assert Touched(lines, key)[i] in Touched(lines, key);
    }
  }

  lemma AuthenticStored(home: World, library: string -> ZipFile, lines: seq<Line>, line: Line, max: nat)
    requires Authentic(home, library, lines) && Authentic(home, library, [line]) && Distinct(lines) && Bytes(lines) <= max
    ensures Authentic(home, library, Stored(lines, line, max))
  {
    var k := StoredMeaning(lines, line, max);
    assert [line][0] == line;
  }

  /** The archive an object store call returned, within the size the judge accepts. */
  predicate Arrives(stored: Option<ZipFile>) {
    stored.Some? && stored.value.size <= MAX_TESTCASE_ARCHIVE_BYTES
  }

  /** The store's archive passes its checks. */
  predicate Loads(w: World, stored: Option<ZipFile>, ref: Ref) {
    Arrives(stored) && !HasErrors(Parse(w, stored.value, LoadOptions(ref)).findings)
  }

  /** The lines after one load: a hit moves its line to the front, a download is stored, a failure changes nothing. */
  function LoadedLines(w: World, lines: seq<Line>, ref: Ref, stored: Option<ZipFile>, max: nat): seq<Line> {
    if !GoodRef(ref) then lines
    else if Has(lines, KeyOf(ref)) then Touched(lines, KeyOf(ref))
    else if Loads(w, stored, ref) then Stored(lines, Line(KeyOf(ref), Parse(w, stored.value, LoadOptions(ref)).testcases), max)
    else lines
  }

  /** What one load returns. */
  function LoadedCases(w: World, lines: seq<Line>, ref: Ref, stored: Option<ZipFile>): Option<seq<Testcase>> {
    if !GoodRef(ref) then None
    else if Has(lines, KeyOf(ref)) then Some(lines[Position(lines, KeyOf(ref))].cases)
    else if Loads(w, stored, ref) then Some(Parse(w, stored.value, LoadOptions(ref)).testcases)
    else None
  }

  /** Download and parse. */
  method LoadFromStore(ref: Ref, w: World, stored: Option<ZipFile>, ghost home: World, ghost library: string -> ZipFile)
    returns (r: Result<array<Testcase>, Fault>)
    requires GoodRef(ref) && Proper(w) && Proper(home) && w.lower == home.lower
    requires stored.Some? ==> Genuine(library, stored.value)
    ensures r.Ok? ==> fresh(r.value) && Serves(home, library, ref, r.value[..])
    ensures r.Ok? <==> Loads(w, stored, ref)
    ensures r == Err(DownloadFailed) <==> stored.None? || stored.value.size > 134_217_728
    ensures r.Err? ==> r != Err(BadReference)
    ensures r.Ok? ==> r.value[..] == Parse(w, stored.value, LoadOptions(ref)).testcases
  {
    if !Arrives(stored) {
      return Err(DownloadFailed);
    }
    var testcases, findings := LoadArchive(w, stored.value, LoadOptions(ref));
    if HasErrors(findings) {
      return Err(BadArchive);
    }
    LoadIsAuthentic(w, home, library, stored.value, ref);
    var cases := new Testcase[|testcases|](i requires 0 <= i < |testcases| => testcases[i]);
    assert cases[..] == testcases;
    return Ok(cases);
  }

  class Cache {
    const maxBytes: nat
    var entries: map<Key, CacheEntry>
    var lru: seq<CacheEntry>
    var currentBytes: int

    /** The lines, most recently used first, and the slices the cache owns. */
    ghost var lines: seq<Line>
    ghost var owned: set<array<Testcase>>

    ghost predicate Valid()
      reads this, owned
    {
      Consistent(entries, lru, currentBytes, maxBytes, lines, owned)
    }

    constructor (maxBytes: int)
      ensures Valid() && lines == [] && owned == {}
      ensures this.maxBytes == if maxBytes <= 0 then 256 * 0x10_0000 else maxBytes
    {
      this.maxBytes := if maxBytes <= 0 then 256 * 0x10_0000 else maxBytes;
      entries, lru, currentBytes, lines, owned := map[], [], 0, [], {};
    }

    lemma Listed(i: nat)
      requires Valid() && i < |lru|
      ensures i < |lines| && Has(lines, lru[i].key) && Position(lines, lru[i].key) == i
    {
      TiedDistinct(entries, lru, lines, owned);
      assert lines[i].key == lru[i].key;
    }

    /** The lines have distinct keys and fit. */
    lemma LinesFit()
      requires Valid()
      ensures Distinct(lines) && Bytes(lines) <= maxBytes
    {
      TiedDistinct(entries, lru, lines, owned);
    }

    /** The map finds exactly the keys of the lines. */
    lemma MapFinds(key: Key)
      requires Valid()
      ensures key in entries <==> Has(lines, key)
    {
      AgreeMeaning(entries, lru, key);
      if key in entries {
        var i :| 0 <= i < |lru| && lru[i].key == key;
        assert lines[i].key == key;
      }
      if Has(lines, key) {
        var i :| 0 <= i < |lines| && lines[i].key == key;
        assert lru[i].key == key;
      }
    }

    /** The list's MoveToFront. */
    method MoveToFront(element: CacheEntry)
      requires Valid() && element in lru
      modifies this`lru, this`lines
      ensures Valid()
      ensures lines == Touched(old(lines), element.key)
    {
      var i: nat :| i < |lru| && lru[i] == element;
      MoveKeeps(entries, lru, currentBytes, maxBytes, lines, owned, i);
      lru, lines := Moved(lru, i), Moved(lines, i);
    }

    method Get(key: Key) returns (r: Option<array<Testcase>>)
      requires Valid()
      modifies this`lru, this`lines
      ensures Valid()
      ensures r.Some? <==> Has(old(lines), key)
      ensures r.Some? ==> fresh(r.value) && r.value[..] == old(lines)[Position(old(lines), key)].cases
      ensures lines == Touched(old(lines), key)
    {
      MapFinds(key);
      if key !in entries {
        return None;
      }
      var element := entries[key];
      AgreeMeaning(entries, lru, key);
      ghost var i :| 0 <= i < |lru| && lru[i].key == key && lru[i] == element;
      Listed(i);
      MoveToFront(element);
      var copy := CloneTestcases(element.cases);
      return Some(copy);
    }

    /** One turn of the eviction loop: the list's back goes. */
    method RemoveOldest()
      requires Valid() && lru != []
      modifies this`entries, this`lru, this`currentBytes, this`lines
      ensures Valid() && lines == old(lines)[..|old(lines)| - 1]
      ensures entries.Keys <= old(entries.Keys) && |lru| == |old(lru)| - 1
    {
      var oldest := lru[|lru| - 1];
      DropKeeps(entries, lru, lines, owned);
      entries := entries - {oldest.key};
      lru := lru[..|lru| - 1];
      currentBytes := currentBytes - oldest.bytes;
      lines := lines[..|lines| - 1];
    }

    /** PushFront, the map's new entry, and the counter. */
    method Insert(entry: CacheEntry, line: Line)
      requires Valid() && entry.key !in entries && entry.cases !in owned
      requires line == Line(entry.key, entry.cases[..]) && entry.bytes == BytesOf(line.cases)
      requires currentBytes + entry.bytes <= maxBytes
      modifies this
      ensures Valid() && owned == old(owned) + {entry.cases} && lines == [line] + old(lines)
    {
      InsertKeeps(entries, lru, lines, owned, entry, line);
      entries := entries[entry.key := entry];
      lru := [entry] + lru;
      currentBytes := currentBytes + entry.bytes;
      lines := [line] + lines;
      owned := owned + {entry.cases};
    }

    /** The eviction loop. */
    method MakeRoom(size: nat)
      requires Valid() && size <= maxBytes
      modifies this`entries, this`lru, this`currentBytes, this`lines
      ensures Valid() && lines == Evict(old(lines), size, maxBytes)
      ensures currentBytes + size <= maxBytes
      ensures entries.Keys <= old(entries.Keys)
    {
      while currentBytes + size > maxBytes && |lru| > 0
        invariant Valid() && entries.Keys <= old(entries.Keys)
        invariant Evict(lines, size, maxBytes) == Evict(old(lines), size, maxBytes)
        decreases |lru|
      {
        RemoveOldest();
      }
    }

    method Put(key: Key, cases: array<Testcase>)
      requires Valid()
      modifies this
      ensures Valid() && fresh(owned - old(owned)) && old(owned) <= owned
      ensures lines == Stored(old(lines), Line(key, old(cases[..])), maxBytes)
    {
      var copy := CloneTestcases(cases);
      var size := TestcaseBytes(cases);
      var entry := CacheEntry(key, copy, size);
      if entry.bytes > maxBytes {
        return;
      }
      MapFinds(key);
      if key in entries {
        return;
      }
      MakeRoom(size);
      Insert(entry, Line(key, copy[..]));
    }

    method Lookup(ref: Ref, ghost home: World, ghost library: string -> ZipFile) returns (r: Option<array<Testcase>>)
      requires Valid() && Authentic(home, library, lines)
      modifies this`lru, this`lines
      ensures Valid() && Authentic(home, library, lines)
      ensures r.Some? <==> Has(old(lines), KeyOf(ref))
      ensures r.Some? ==> fresh(r.value) && Serves(home, library, ref, r.value[..])
      ensures r.Some? ==> r.value[..] == old(lines)[Position(old(lines), KeyOf(ref))].cases
      ensures lines == Touched(old(lines), KeyOf(ref))
    {
      TiedDistinct(entries, lru, lines, owned);
      AuthenticTouched(home, library, lines, KeyOf(ref));
      if Has(lines, KeyOf(ref)) {
        LineServes(home, library, ref, lines);
      }
      r := Get(KeyOf(ref));
    }

    method Fill(ref: Ref, cases: array<Testcase>, ghost home: World, ghost library: string -> ZipFile)
      requires Valid() && Authentic(home, library, lines) && Serves(home, library, ref, cases[..])
      modifies this
      ensures Valid() && Authentic(home, library, lines) && old(owned) <= owned && fresh(owned - old(owned))
      ensures lines == Stored(old(lines), Line(KeyOf(ref), old(cases[..])), maxBytes)
    {
      TiedDistinct(entries, lru, lines, owned);
      ServesIsAuthentic(home, library, ref, cases[..]);
      AuthenticStored(home, library, lines, Line(KeyOf(ref), cases[..]), maxBytes);
      Put(KeyOf(ref), cases);
    }

    /** A load that misses: what the store has is parsed, kept, and copied for the caller. */
    method LoadMissed(ref: Ref, w: World, stored: Option<ZipFile>, ghost home: World, ghost library: string -> ZipFile)
      returns (r: Result<array<Testcase>, Fault>)
      requires Valid() && Authentic(home, library, lines) && GoodRef(ref)
      requires Proper(w) && Proper(home) && w.lower == home.lower
      requires stored.Some? ==> Genuine(library, stored.value)
      modifies this
      ensures Valid() && Authentic(home, library, lines)
      ensures old(owned) <= owned && fresh(owned - old(owned))
      ensures r.Ok? <==> Loads(w, stored, ref)
      ensures r == Err(DownloadFailed) <==> stored.None? || stored.value.size > 134_217_728
      ensures r.Err? ==> r != Err(BadReference) && lines == old(lines)
      ensures r.Ok? ==> fresh(r.value) && r.value !in owned && Serves(home, library, ref, r.value[..])
      ensures r.Ok? ==> r.value[..] == Parse(w, stored.value, LoadOptions(ref)).testcases
      ensures r.Ok? ==> lines == Stored(old(lines), Line(KeyOf(ref), r.value[..]), maxBytes)
    {
      var loaded := LoadFromStore(ref, w, stored, home, library);
      if loaded.Err? {
        return loaded;
      }
      Fill(ref, loaded.value, home, library);
      var copy := CloneTestcases(loaded.value);
      return Ok(copy);
    }

    /** A fresh slice with the cases, from the cache or from the store. */
    method Load(ref: Ref, w: World, stored: Option<ZipFile>, ghost home: World, ghost library: string -> ZipFile)
      returns (r: Result<array<Testcase>, Fault>)
      requires Valid() && Authentic(home, library, lines)
      requires Proper(w) && Proper(home) && w.lower == home.lower
      requires stored.Some? ==> Genuine(library, stored.value)
      modifies this
      ensures Valid() && Authentic(home, library, lines)
      ensures old(owned) <= owned && fresh(owned - old(owned))
      ensures lines == LoadedLines(w, old(lines), ref, stored, maxBytes)
      ensures r.Ok? ==> fresh(r.value) && r.value !in owned && Serves(home, library, ref, r.value[..])
      ensures r.Ok? <==> GoodRef(ref) && (Has(old(lines), KeyOf(ref)) || Loads(w, stored, ref))
      ensures r.Ok? ==> LoadedCases(w, old(lines), ref, stored) == Some(r.value[..])
      ensures r == Err(BadReference) <==> ref.id <= 0 || ref.caseCount <= 0 || AllSpace(ref.checksum) || AllSpace(ref.storageKey)
      ensures r == Err(DownloadFailed) <==>
                r != Err(BadReference) && !Has(old(lines), KeyOf(ref)) && (stored.None? || stored.value.size > 134_217_728)
    {
      BadRefIff(ref);
      if !GoodRef(ref) {
        return Err(BadReference);
      }
      var hit := Lookup(ref, home, library);
      if hit.Some? {
        return Ok(hit.value);
      }
      r := LoadMissed(ref, w, stored, home, library);
    }
  }
}
