/**
 * Callers of internal/submission/testcase_cache.go: loads, and writes into any slice an earlier load
 * returned, in any order. Slices on the heap behave like values that share nothing.
 */
module CacheCallers {
  import opened Wrappers
  import opened Sorting
  import opened Archive
  import opened TestcaseCache

  datatype Call =
    | LoadCall(ref: Ref, world: World, stored: Option<ZipFile>)
    | WriteCall(result: nat, index: nat, value: Testcase)

  /** The executions share one ToLower function, and the store returns genuine archives. */
  ghost predicate Fair(home: World, library: string -> ZipFile, calls: seq<Call>) {
    && Proper(home)
    && forall n | 0 <= n < |calls| && calls[n].LoadCall? ::
         Proper(calls[n].world) && calls[n].world.lower == home.lower && (calls[n].stored.Some? ==> Genuine(library, calls[n].stored.value))
  }

  // ----- the calls on values -----

  /** The cache's lines, and what each successful load returned as its caller sees it now. */
  datatype View = View(lines: seq<Line>, results: seq<seq<Testcase>>)

  function Returned(found: Option<seq<Testcase>>): seq<seq<Testcase>> {
    match found case None => [] case Some(cases) => [cases]
  }

  function Called(v: View, call: Call, max: nat): View {
    match call
    case LoadCall(ref, w, stored) =>
      View(LoadedLines(w, v.lines, ref, stored, max), v.results + Returned(LoadedCases(w, v.lines, ref, stored)))
    case WriteCall(k, i, x) =>
      if k < |v.results| && i < |v.results[k]| then v.(results := v.results[k := v.results[k][i := x]]) else v
  }

  function AfterCalls(v: View, calls: seq<Call>, max: nat): View {
    if calls == [] then v else Called(AfterCalls(v, calls[..|calls| - 1], max), calls[|calls| - 1], max)
  }

  // ----- the calls on the heap -----

  function Contents(results: seq<array<Testcase>>): (r: seq<seq<Testcase>>)
    reads results
    ensures |r| == |results| && forall k | 0 <= k < |r| :: r[k] == results[k][..]
  {
    seq(|results|, k requires 0 <= k < |results| reads results => results[k][..])
  }

  /** The results share nothing with each other and nothing with the cache. */
  ghost predicate Apart(cache: Cache, results: seq<array<Testcase>>)
    reads cache
  {
    && (forall k | 0 <= k < |results| :: results[k] !in cache.owned)
    && forall j, k | 0 <= j < k < |results| :: results[j] != results[k]
  }

  lemma ApartWith(cache: Cache, results: seq<array<Testcase>>, mine: array<Testcase>)
    requires Apart(cache, results) && mine !in cache.owned && forall k | 0 <= k < |results| :: results[k] != mine
    ensures Apart(cache, results + [mine]) && Contents(results + [mine]) == Contents(results) + [mine[..]]
  {
  }

  /** One load next to earlier results: as far as values and ownership go. */
  method LoadOne(cache: Cache, ghost results: seq<array<Testcase>>, ref: Ref, w: World, stored: Option<ZipFile>,
                 ghost home: World, ghost library: string -> ZipFile) returns (loaded: Result<array<Testcase>, Fault>)
    requires cache.Valid() && Authentic(home, library, cache.lines) && Apart(cache, results)
    requires Proper(w) && Proper(home) && w.lower == home.lower && (stored.Some? ==> Genuine(library, stored.value))
    modifies cache
    ensures cache.Valid() && Authentic(home, library, cache.lines) && Apart(cache, results)
    ensures cache.lines == LoadedLines(w, old(cache.lines), ref, stored, cache.maxBytes)
    ensures Returned(LoadedCases(w, old(cache.lines), ref, stored)) == if loaded.Ok? then [loaded.value[..]] else []
    ensures loaded.Ok? ==> fresh(loaded.value) && loaded.value !in cache.owned
  {
    ghost var was := cache.owned;
    loaded := cache.Load(ref, w, stored, home, library);
    forall k | 0 <= k < |results| ensures results[k] !in cache.owned {
      assert results[k] !in cache.owned - was;
    }
  }

  /** One load, its result kept after the earlier ones. */
  method LoadNext(cache: Cache, results: seq<array<Testcase>>, ref: Ref, w: World, stored: Option<ZipFile>,
                  ghost home: World, ghost library: string -> ZipFile) returns (more: seq<array<Testcase>>)
    requires cache.Valid() && Authentic(home, library, cache.lines) && Apart(cache, results)
    requires Proper(w) && Proper(home) && w.lower == home.lower && (stored.Some? ==> Genuine(library, stored.value))
    modifies cache
    ensures cache.Valid() && Authentic(home, library, cache.lines) && Apart(cache, more)
    ensures results <= more && forall k | |results| <= k < |more| :: fresh(more[k])
    ensures cache.lines == LoadedLines(w, old(cache.lines), ref, stored, cache.maxBytes)
    ensures Contents(more) == old(Contents(results)) + Returned(LoadedCases(w, old(cache.lines), ref, stored))
  {
    ghost var before := Contents(results);
    var loaded := LoadOne(cache, results, ref, w, stored, home, library);
    assert Contents(results) == before;
    more := results;
    if loaded.Ok? {
      ApartWith(cache, results, loaded.value);
      more := results + [loaded.value];
    }
  }

  /** A write into one result is seen through that result alone, and not by the cache. */
  method WriteInto(cache: Cache, results: seq<array<Testcase>>, k: nat, i: nat, x: Testcase)
    requires cache.Valid() && Apart(cache, results) && k < |results| && i < results[k].Length
    modifies results[k]
    ensures cache.Valid()
    ensures Contents(results) == old(Contents(results))[k := old(results[k][..])[i := x]]
  {
    results[k][i] := x;
  }

  /** One call: a load, or a write. */
  method ServeOne(cache: Cache, results: seq<array<Testcase>>, call: Call, ghost home: World, ghost library: string -> ZipFile)
    returns (more: seq<array<Testcase>>)
    requires cache.Valid() && Authentic(home, library, cache.lines) && Apart(cache, results)
    requires Fair(home, library, [call])
    modifies cache, results
    ensures cache.Valid() && Authentic(home, library, cache.lines) && Apart(cache, more)
    ensures results <= more && forall k | |results| <= k < |more| :: fresh(more[k])
    ensures View(cache.lines, Contents(more)) == Called(View(old(cache.lines), old(Contents(results))), call, cache.maxBytes)
  {
    assert call == [call][0];
    more := results;
    match call
    case LoadCall(ref, w, stored) =>
      more := LoadNext(cache, results, ref, w, stored, home, library);
    case WriteCall(k, i, x) =>
      if k < |results| && i < results[k].Length {
        WriteInto(cache, results, k, i, x);
      }
  }

  lemma OneMoreCall(start: View, calls: seq<Call>, n: nat, max: nat)
    requires n < |calls|
    ensures AfterCalls(start, calls[..n + 1], max) == Called(AfterCalls(start, calls[..n], max), calls[n], max)
  {
    assert calls[..n + 1][..n] == calls[..n];
  }

  // ----- what that means for a caller -----

  function IsLoad(): Call -> bool {
    (call: Call) => call.LoadCall?
  }

  predicate WrittenTo(calls: seq<Call>, k: nat) {
    exists n :: 0 <= n < |calls| && calls[n].WriteCall? && calls[n].result == k
  }

  /** Same cache, and the same slices except those written to. */
  ghost predicate Alike(a: View, b: View, calls: seq<Call>) {
    && a.lines == b.lines && |a.results| == |b.results|
    && forall k | 0 <= k < |a.results| && !WrittenTo(calls, k) :: a.results[k] == b.results[k]
  }

  lemma WrittenBefore(calls: seq<Call>, last: Call, k: nat)
    ensures WrittenTo(calls + [last], k) <==> WrittenTo(calls, k) || (last.WriteCall? && last.result == k)
  {
    var more := calls + [last];
    if n :| 0 <= n < |calls| && calls[n].WriteCall? && calls[n].result == k {
      assert more[n] == calls[n];
    }
    assert more[|calls|] == last;
  }

  lemma AlikeStep(a: View, b: View, calls: seq<Call>, last: Call, max: nat)
    requires Alike(a, b, calls)
    ensures Alike(Called(a, last, max), if last.LoadCall? then Called(b, last, max) else b, calls + [last])
  {
    forall k: nat ensures WrittenTo(calls + [last], k) <==> WrittenTo(calls, k) || (last.WriteCall? && last.result == k) {
      WrittenBefore(calls, last, k);
    }
  }

  lemma AfterOneMore(v: View, calls: seq<Call>, last: Call, max: nat)
    ensures AfterCalls(v, calls + [last], max) == Called(AfterCalls(v, calls, max), last, max)
  {
    assert (calls + [last])[..|calls|] == calls;
  }

  /** Taking every write out changes neither the cache nor any slice that nobody wrote into. */
  lemma {:induction false} WritesUnseen(v: View, calls: seq<Call>, max: nat)
    ensures Alike(AfterCalls(v, calls, max), AfterCalls(v, Filter(IsLoad(), calls), max), calls)
  {
    if calls != [] {
      var before, last := calls[..|calls| - 1], calls[|calls| - 1];
      WritesUnseen(v, before, max);
      assert calls == before + [last];
      FilterOneMore(IsLoad(), before, last);
      AfterOneMore(v, before, last, max);
      AfterOneMore(v, Filter(IsLoad(), before), last, max);
      AlikeStep(AfterCalls(v, before, max), AfterCalls(v, Filter(IsLoad(), before), max), before, last, max);
    }
  }

  /** The references of the loads that succeeded. */
  function Asked(v: View, calls: seq<Call>, max: nat): seq<Ref> {
    if calls == [] then []
    else
      var before, last := calls[..|calls| - 1], calls[|calls| - 1];
      Asked(v, before, max)
      + match last
        case WriteCall(_, _, _) => []
        case LoadCall(ref, w, stored) => MapSeq((found: seq<Testcase>) => ref, Returned(LoadedCases(w, AfterCalls(v, before, max).lines, ref, stored)))
  }

  ghost predicate LinesOk(home: World, library: string -> ZipFile, lines: seq<Line>, max: nat) {
    Authentic(home, library, lines) && Distinct(lines) && Bytes(lines) <= max
  }

  /** A load serves the archive its reference names, and leaves only such lines. */
  lemma LoadServes(home: World, library: string -> ZipFile, lines: seq<Line>, ref: Ref, w: World, stored: Option<ZipFile>, max: nat)
    requires LinesOk(home, library, lines, max)
    requires Proper(w) && Proper(home) && w.lower == home.lower && (stored.Some? ==> Genuine(library, stored.value))
    ensures LinesOk(home, library, LoadedLines(w, lines, ref, stored, max), max)
    ensures LoadedCases(w, lines, ref, stored).Some? ==> Serves(home, library, ref, LoadedCases(w, lines, ref, stored).value)
  {
    if GoodRef(ref) && Has(lines, KeyOf(ref)) {
      LineServes(home, library, ref, lines);
      AuthenticTouched(home, library, lines, KeyOf(ref));
      TouchedMeaning(lines, KeyOf(ref));
    } else if GoodRef(ref) && Loads(w, stored, ref) {
      var cases := Parse(w, stored.value, LoadOptions(ref)).testcases;
      LoadIsAuthentic(w, home, library, stored.value, ref);
      ServesIsAuthentic(home, library, ref, cases);
      AuthenticStored(home, library, lines, Line(KeyOf(ref), cases), max);
      var _ := StoredMeaning(lines, Line(KeyOf(ref), cases), max);
    }
  }

  /** Without writes, every slice holds the cases of the archive its reference names. */
  lemma {:induction false} QuietLoadsServe(home: World, library: string -> ZipFile, v: View, calls: seq<Call>, max: nat)
    requires Fair(home, library, calls) && LinesOk(home, library, v.lines, max) && v.results == []
    requires forall n | 0 <= n < |calls| :: calls[n].LoadCall?
    ensures var r, asked := AfterCalls(v, calls, max), Asked(v, calls, max);
            && LinesOk(home, library, r.lines, max) && |asked| == |r.results|
            && forall k | 0 <= k < |asked| :: Serves(home, library, asked[k], r.results[k])
  {
    if calls != [] {
      var before, last := calls[..|calls| - 1], calls[|calls| - 1];
      QuietLoadsServe(home, library, v, before, max);
      LoadServes(home, library, AfterCalls(v, before, max).lines, last.ref, last.world, last.stored, max);
    }
  }

  lemma LoadsAreFair(home: World, library: string -> ZipFile, calls: seq<Call>)
    requires Fair(home, library, calls)
    ensures Fair(home, library, Filter(IsLoad(), calls))
  {
    var loads := Filter(IsLoad(), calls);
    forall n | 0 <= n < |loads| ensures loads[n] in calls {
      assert loads[n] in loads;
    }
  }

  /** Among any loads and writes, a slice nobody wrote into holds the cases of the archive its reference names. */
  lemma UnwrittenServes(home: World, library: string -> ZipFile, lines: seq<Line>, calls: seq<Call>, max: nat, k: nat)
    requires Fair(home, library, calls) && LinesOk(home, library, lines, max)
    requires k < |AfterCalls(View(lines, []), calls, max).results| && !WrittenTo(calls, k)
    ensures var asked := Asked(View(lines, []), Filter(IsLoad(), calls), max);
            k < |asked| && Serves(home, library, asked[k], AfterCalls(View(lines, []), calls, max).results[k])
  {
    var v, loads := View(lines, []), Filter(IsLoad(), calls);
    WritesUnseen(v, calls, max);
    LoadsAreFair(home, library, calls);
    forall n | 0 <= n < |loads| ensures loads[n].LoadCall? {
      assert loads[n] in loads;
    }
    QuietLoadsServe(home, library, v, loads, max);
  }

  lemma UnwrittenServe(home: World, library: string -> ZipFile, lines: seq<Line>, calls: seq<Call>, max: nat, view: View)
    requires Fair(home, library, calls) && LinesOk(home, library, lines, max) && view == AfterCalls(View(lines, []), calls, max)
    ensures var asked := Asked(View(lines, []), Filter(IsLoad(), calls), max);
            forall k | 0 <= k < |view.results| && !WrittenTo(calls, k) :: k < |asked| && Serves(home, library, asked[k], view.results[k])
  {
    forall k | 0 <= k < |view.results| && !WrittenTo(calls, k)
      ensures var asked := Asked(View(lines, []), Filter(IsLoad(), calls), max); k < |asked| && Serves(home, library, asked[k], view.results[k])
    {
      UnwrittenServes(home, library, lines, calls, max, k);
    }
  }

  /**
   * Whatever the callers write into the slices they got, cache and slices are as if nothing were
   * shared, and a slice nobody wrote into is what its reference names.
   */
  method Serve(cache: Cache, calls: seq<Call>, ghost home: World, ghost library: string -> ZipFile) returns (results: seq<array<Testcase>>)
    requires cache.Valid() && Authentic(home, library, cache.lines) && Fair(home, library, calls)
    modifies cache
    ensures cache.Valid() && Authentic(home, library, cache.lines)
    ensures Apart(cache, results) && forall k | 0 <= k < |results| :: fresh(results[k])
    ensures View(cache.lines, Contents(results)) == AfterCalls(View(old(cache.lines), []), calls, cache.maxBytes)
    ensures var asked := Asked(View(old(cache.lines), []), Filter(IsLoad(), calls), cache.maxBytes);
            forall k | 0 <= k < |results| && !WrittenTo(calls, k) :: k < |asked| && Serves(home, library, asked[k], results[k][..])
  {
    cache.LinesFit();
    results := [];
    ghost var view := View(cache.lines, []);
    for n := 0 to |calls|
      invariant cache.Valid() && Authentic(home, library, cache.lines)
      invariant Apart(cache, results) && forall k | 0 <= k < |results| :: fresh(results[k])
      invariant view == AfterCalls(View(old(cache.lines), []), calls[..n], cache.maxBytes)
      invariant view == View(cache.lines, Contents(results))
    {
      OneMoreCall(View(old(cache.lines), []), calls, n, cache.maxBytes);
      view := Called(view, calls[n], cache.maxBytes);
      results := ServeOne(cache, results, calls[n], home, library);
    }
    assert calls[..|calls|] == calls;
    assert Contents(results) == view.results;
    UnwrittenServe(home, library, old(cache.lines), calls, cache.maxBytes, view);
  }
}
