/** What an accepted archive gives the judge, and that every path through the parser agrees on it. */
module ArchiveResults {
  import opened Wrappers
  import opened Sorting
  import opened Sums
  import opened Text
  import opened NaturalOrder
  import opened Archive
  import opened ArchiveMeaning

  // ----- the cases of an accepted archive -----

  /** The one member of a slot. */
  function Holder(lower: string -> string, members: seq<Member>, slot: Slot): Member
    requires Holders(lower, members, slot) != []
  {
    Holders(lower, members, slot)[0]
  }

  /** Case `k` is what the two members named by its key say. */
  ghost predicate CaseFits(lower: string -> string, members: seq<Member>, o: Options, r: ParseResult, k: nat)
    requires k < |r.cases| == |r.testcases|
  {
    var key := r.cases[k].key;
    && |Holders(lower, members, Slot(Input, key))| == 1 && |Holders(lower, members, Slot(Output, key))| == 1
    && var input, output := Holder(lower, members, Slot(Input, key)), Holder(lower, members, Slot(Output, key));
       && r.cases[k] == ArchiveCase(key, input.name, output.name, ToInt64(|input.content|), ToInt64(|output.content|))
       && r.testcases[k] == Testcase(k + 1, if o.keepContents then input.content else [], if o.keepContents then output.content else [],
                                     o.timeLimit, o.memoryKB)
  }

  lemma AcceptedState(w: World, z: ZipFile, options: Options) returns (st: ParseState)
    requires Proper(w) && !HasErrors(Parse(w, z, options).findings)
    ensures var o := WithDefaults(options);
            && z.members.Some? && Acceptable(w.lower, z.members.value, o)
            && Sound(w.lower, st, z.members.value, o)
            && st == Fold(w.lower, z.members.value, o) && Parse(w, z, options) == Finish(w, st, o)
            && st.inputs.Keys == st.outputs.Keys && PairKeys(w, st.inputs, st.outputs) != []
  {
    var o := WithDefaults(options);
    AcceptedIff(w, z, options);
    st := Fold(w.lower, z.members.value, o);
    CleanIff(w.lower, z.members.value, o);
    FinishClean(w, st, o);
    PairKeysAre(w, st.inputs, st.outputs);
    var key :| key in st.inputs.Keys;
    assert key in PairKeys(w, st.inputs, st.outputs);
  }

  /** The cases and testcases of an accepted archive are those of its pairs. */
  lemma AcceptedCases(w: World, z: ZipFile, options: Options) returns (st: ParseState, keys: seq<string>)
    requires Proper(w) && !HasErrors(Parse(w, z, options).findings)
    ensures var o := WithDefaults(options);
            && z.members.Some? && OneEach(w.lower, z.members.value) && Sound(w.lower, st, z.members.value, o)
            && st.inputs.Keys == st.outputs.Keys && keys == PairKeys(w, st.inputs, st.outputs)
            && Parse(w, z, options).cases == CasesOf(keys, st.inputs, st.outputs)
            && Parse(w, z, options).testcases == TestcasesOf(keys, st.inputs, st.outputs, o)
  {
    st := AcceptedState(w, z, options);
    keys := PairKeys(w, st.inputs, st.outputs);
  }

  lemma EntriesFit(lower: string -> string, st: ParseState, members: seq<Member>, o: Options, key: string)
    requires Sound(lower, st, members, o) && OneEach(lower, members) && key in st.inputs && key in st.outputs
    ensures |Holders(lower, members, Slot(Input, key))| == 1 && |Holders(lower, members, Slot(Output, key))| == 1
    ensures st.inputs[key] == EntryOf(Holder(lower, members, Slot(Input, key)), o.keepContents)
    ensures st.outputs[key] == EntryOf(Holder(lower, members, Slot(Output, key)), o.keepContents)
  {
    assert |Holders(lower, members, Slot(Input, key))| <= 1 && |Holders(lower, members, Slot(Output, key))| <= 1;
  }

  lemma PairFits(lower: string -> string, st: ParseState, members: seq<Member>, o: Options, keys: seq<string>, r: ParseResult, k: nat)
    requires Sound(lower, st, members, o) && OneEach(lower, members) && k < |keys|
    requires forall l | 0 <= l < |keys| :: keys[l] in st.inputs && keys[l] in st.outputs
    requires r.cases == CasesOf(keys, st.inputs, st.outputs) && r.testcases == TestcasesOf(keys, st.inputs, st.outputs, o)
    ensures CaseFits(lower, members, o, r, k)
  {
    EntriesFit(lower, st, members, o, keys[k]);
  }

  /** Every case comes from its two members. */
  lemma CasesFit(w: World, z: ZipFile, options: Options, k: nat)
    requires Proper(w) && !HasErrors(Parse(w, z, options).findings)
    requires k < |Parse(w, z, options).cases|
    ensures |Parse(w, z, options).testcases| == |Parse(w, z, options).cases| && z.members.Some?
    ensures CaseFits(w.lower, z.members.value, WithDefaults(options), Parse(w, z, options), k)
  {
    var st, keys := AcceptedCases(w, z, options);
    var r, o := Parse(w, z, options), WithDefaults(options);
    PairFits(w.lower, st, z.members.value, o, keys, r, k);
  }

  lemma KeysOnce(w: World, inputs: map<string, Entry>, outputs: map<string, Entry>)
    requires Proper(w)
    ensures var keys := PairKeys(w, inputs, outputs); forall j, k | 0 <= j < k < |keys| :: keys[j] != keys[k]
    ensures inputs.Keys == outputs.Keys ==> |PairKeys(w, inputs, outputs)| == |inputs|
  {
    var listed := w.order(inputs.Keys);
    var keys := PairKeys(w, inputs, outputs);
    OrderLists(w, inputs.Keys);
    forall j, k | 0 <= j < k < |keys| ensures keys[j] != keys[k] {
      FilterMultiplicity(InBoth(inputs, outputs), listed, keys[j]);
      assert multiset(listed)[keys[j]] <= 1;
      assert multiset(keys)[keys[j]] <= 1;
      if keys[j] == keys[k] {
        TwiceCounts(keys, j, k);
        assert false;
      }
    }
    if inputs.Keys == outputs.Keys {
      FilterAll(InBoth(inputs, outputs), listed);
    }
  }

  lemma KeysAscend(w: World, inputs: map<string, Entry>, outputs: map<string, Entry>)
    requires Proper(w)
    ensures var keys := PairKeys(w, inputs, outputs); forall j, k | 0 <= j < k < |keys| :: NaturalBefore(w.lower, keys[j], keys[k])
  {
    var keys := PairKeys(w, inputs, outputs);
    var both := Filter(InBoth(inputs, outputs), w.order(inputs.Keys));
    KeysOnce(w, inputs, outputs);
    NaturalIsLinear(w.lower, both);
    SortOrdered(NaturalAtMost(w.lower), both);
    forall j, k | 0 <= j < k < |keys| ensures NaturalBefore(w.lower, keys[j], keys[k]) {
      NaturalTrichotomy(w.lower, keys[j], keys[k]);
      assert NaturalAtMost(w.lower)(keys[j], keys[k]);
    }
  }

  /** Participating members are twice the cases, and the cases' keys strictly increase. */
  lemma PerfectPairing(w: World, z: ZipFile, options: Options)
    requires Proper(w) && !HasErrors(Parse(w, z, options).findings)
    ensures z.members.Some?
    ensures |Filter(TakesPart(), z.members.value)| == 2 * |Parse(w, z, options).cases|
    ensures var cases := Parse(w, z, options).cases; forall j, k | 0 <= j < k < |cases| :: NaturalBefore(w.lower, cases[j].key, cases[k].key)
  {
    var st, keys := AcceptedCases(w, z, options);
    KeysOnce(w, st.inputs, st.outputs);
    KeysAscend(w, st.inputs, st.outputs);
    assert |st.inputs| == |st.inputs.Keys| == |st.outputs.Keys| == |st.outputs|;
  }

  lemma OnlyHolder(lower: string -> string, members: seq<Member>, o: Options, m: Member)
    requires WithinBudget(lower, members, o) && OneEach(lower, members) && m in members && TakesPart()(m)
    ensures SlotOf(lower, m).Some? && Holders(lower, members, SlotOf(lower, m).value) == [m]
  {
    assert MemberOk(lower, m, o);
    var slot := SlotOf(lower, m).value;
    assert HasSlot(lower, slot)(m) && m in Holders(lower, members, slot);
    assert |Holders(lower, members, slot)| <= 1;
  }

  lemma KeyOfMember(lower: string -> string, st: ParseState, members: seq<Member>, o: Options, slot: Slot)
    requires Sound(lower, st, members, o) && st.inputs.Keys == st.outputs.Keys && Holders(lower, members, slot) != []
    ensures slot.key in st.inputs && slot.key in st.outputs
  {
    assert slot == Slot(slot.kind, slot.key);
    if slot.kind.Input? {
      assert slot.key in st.inputs.Keys;
    } else {
      assert slot.key in st.outputs.Keys;
    }
  }

  lemma KeyListed(w: World, inputs: map<string, Entry>, outputs: map<string, Entry>, key: string) returns (k: nat)
    requires Proper(w) && key in inputs && key in outputs
    ensures var keys := PairKeys(w, inputs, outputs); k < |keys| && keys[k] == key && forall l | 0 <= l < |keys| && l != k :: keys[l] != key
  {
    PairKeysAre(w, inputs, outputs);
    KeysOnce(w, inputs, outputs);
    var keys := PairKeys(w, inputs, outputs);
    assert key in keys;
    k :| 0 <= k < |keys| && keys[k] == key;
  }

  lemma CaseListed(keys: seq<string>, inputs: map<string, Entry>, outputs: map<string, Entry>, cases: seq<ArchiveCase>, key: string, k: nat)
    requires forall l | 0 <= l < |keys| :: keys[l] in inputs && keys[l] in outputs
    requires cases == CasesOf(keys, inputs, outputs)
    requires k < |keys| && keys[k] == key && forall l | 0 <= l < |keys| && l != k :: keys[l] != key
    ensures k < |cases| && cases[k].key == key && forall l | 0 <= l < |cases| && l != k :: cases[l].key != key
  {
  }

  lemma CaseWithKey(w: World, z: ZipFile, options: Options, slot: Slot) returns (k: nat)
    requires Proper(w) && !HasErrors(Parse(w, z, options).findings)
    requires z.members.Some? && Holders(w.lower, z.members.value, slot) != []
    ensures k < |Parse(w, z, options).cases| && Parse(w, z, options).cases[k].key == slot.key
    ensures forall l | 0 <= l < |Parse(w, z, options).cases| && l != k :: Parse(w, z, options).cases[l].key != slot.key
  {
    var st, keys := AcceptedCases(w, z, options);
    var cases, o := Parse(w, z, options).cases, WithDefaults(options);
    KeyOfMember(w.lower, st, z.members.value, o, slot);
    k := KeyListed(w, st.inputs, st.outputs, slot.key);
    CaseListed(keys, st.inputs, st.outputs, cases, slot.key, k);
  }

  /** The case of a member: its key is the member's, and the member is its input or its output. */
  lemma MemberHasCase(w: World, z: ZipFile, options: Options, m: Member) returns (k: nat)
    requires Proper(w) && !HasErrors(Parse(w, z, options).findings)
    requires z.members.Some? && m in z.members.value && TakesPart()(m)
    ensures k < |Parse(w, z, options).cases| && SlotOf(w.lower, m).Some?
    ensures var slot, c := SlotOf(w.lower, m).value, Parse(w, z, options).cases[k];
            slot.key == c.key && m.name == (if slot.kind.Input? then c.inputPath else c.outputPath)
    ensures forall l | 0 <= l < |Parse(w, z, options).cases| && l != k :: Parse(w, z, options).cases[l].key != SlotOf(w.lower, m).value.key
  {
    AcceptedIff(w, z, options);
    OnlyHolder(w.lower, z.members.value, WithDefaults(options), m);
    var slot := SlotOf(w.lower, m).value;
    k := CaseWithKey(w, z, options, slot);
    CasesFit(w, z, options, k);
    assert slot == Slot(slot.kind, slot.key);
  }

  // ----- the order of the members and of Go's maps does not matter -----

  lemma SameLength<T>(a: seq<T>, b: seq<T>)
    requires multiset(a) == multiset(b)
    ensures |a| == |b|
  {
    assert |a| == |multiset(a)| && |b| == |multiset(b)|;
  }

  lemma BudgetPermuted(lower: string -> string, a: seq<Member>, b: seq<Member>, o: Options)
    requires multiset(a) == multiset(b) && WithinBudget(lower, a, o)
    ensures WithinBudget(lower, b, o)
  {
    FilterPermuted(IsFile(), a, b);
    SameLength(Filter(IsFile(), a), Filter(IsFile(), b));
    FilterPermuted(TakesPart(), a, b);
    SumPermuted(Declared(), Filter(TakesPart(), a), Filter(TakesPart(), b));
    SumPermuted(Actual(), Filter(TakesPart(), a), Filter(TakesPart(), b));
    SameMembers(a, b);
  }

  lemma HoldersPermuted(lower: string -> string, a: seq<Member>, b: seq<Member>, slot: Slot)
    requires multiset(a) == multiset(b)
    ensures |Holders(lower, a, slot)| == |Holders(lower, b, slot)|
    ensures |Holders(lower, a, slot)| == 1 ==> Holders(lower, a, slot) == Holders(lower, b, slot)
  {
    FilterPermuted(HasSlot(lower, slot), a, b);
    SameLength(Holders(lower, a, slot), Holders(lower, b, slot));
    SameMembers(Holders(lower, a, slot), Holders(lower, b, slot));
    if |Holders(lower, a, slot)| == 1 {
      assert Holders(lower, b, slot)[0] in Holders(lower, b, slot);
    }
  }

  lemma AcceptablePermuted(lower: string -> string, a: seq<Member>, b: seq<Member>, o: Options)
    requires multiset(a) == multiset(b) && Acceptable(lower, a, o)
    ensures Acceptable(lower, b, o)
  {
    BudgetPermuted(lower, a, b, o);
    forall slot ensures |Holders(lower, b, slot)| <= 1 && |Holders(lower, a, slot)| == |Holders(lower, b, slot)| {
      HoldersPermuted(lower, a, b, slot);
      assert |Holders(lower, a, slot)| <= 1;
    }
    FilterPermuted(TakesPart(), a, b);
    SameLength(Filter(TakesPart(), a), Filter(TakesPart(), b));
  }

  lemma MapPermuted(lower: string -> string, a: seq<Member>, b: seq<Member>, kind: Kind, x: map<string, Entry>, y: map<string, Entry>, keep: bool)
    requires multiset(a) == multiset(b) && OneEach(lower, a)
    requires MapOk(lower, x, kind, a, keep) && MapOk(lower, y, kind, b, keep)
    ensures x == y
  {
    forall key ensures key in x <==> key in y
      ensures key in x ==> key in y && x[key] == y[key]
    {
      HoldersPermuted(lower, a, b, Slot(kind, key));
      assert |Holders(lower, a, Slot(kind, key))| <= 1;
    }
  }

  lemma KeysPermuted(w: World, v: World, inputs: map<string, Entry>, outputs: map<string, Entry>)
    requires Proper(w) && Proper(v) && w.lower == v.lower
    ensures PairKeys(w, inputs, outputs) == PairKeys(v, inputs, outputs)
  {
    assert multiset(w.order(inputs.Keys)) == multiset(inputs.Keys) == multiset(v.order(inputs.Keys));
    FilterPermuted(InBoth(inputs, outputs), w.order(inputs.Keys), v.order(inputs.Keys));
    NaturalSortIsDeterministic(w.lower, Filter(InBoth(inputs, outputs), w.order(inputs.Keys)), Filter(InBoth(inputs, outputs), v.order(inputs.Keys)));
  }

  /** An accepted archive stays accepted with its members in any other order, and gives the same cases and contents. */
  lemma OrderDoesNotMatter(w: World, v: World, z: ZipFile, y: ZipFile, options: Options)
    requires Proper(w) && Proper(v) && w.lower == v.lower
    requires z.members.Some? && y.members.Some? && multiset(z.members.value) == multiset(y.members.value)
    requires Rejection(y, WithDefaults(options)).None?
    requires !HasErrors(Parse(w, z, options).findings)
    ensures !HasErrors(Parse(v, y, options).findings)
    ensures Parse(v, y, options).cases == Parse(w, z, options).cases && Parse(v, y, options).testcases == Parse(w, z, options).testcases
  {
    var o := WithDefaults(options);
    AcceptedIff(w, z, options);
    AcceptablePermuted(w.lower, z.members.value, y.members.value, o);
    AcceptedIff(v, y, options);
    var s := AcceptedState(w, z, options);
    var t := AcceptedState(v, y, options);
    MapPermuted(w.lower, z.members.value, y.members.value, Input, s.inputs, t.inputs, o.keepContents);
    MapPermuted(w.lower, z.members.value, y.members.value, Output, s.outputs, t.outputs, o.keepContents);
    KeysPermuted(w, v, s.inputs, s.outputs);
  }

  // ----- what upload says, judging finds -----

  function Bare(entries: map<string, Entry>): map<string, Entry> {
    map key | key in entries :: entries[key].(content := [])
  }

  /** A parse state without the kept bytes. */
  function Forget(st: ParseState): ParseState {
    st.(inputs := Bare(st.inputs), outputs := Bare(st.outputs))
  }

  /** Options with the same budgets. */
  predicate SameBudgets(a: Options, b: Options) {
    a == b.(expected := a.expected, keepContents := a.keepContents, timeLimit := a.timeLimit, memoryKB := a.memoryKB)
  }

  function Discard(d: Disposition): Disposition {
    if d.Usable? then d.(kept := []) else d
  }

  lemma AfterReadAlike(s: ParseState, t: ParseState, m: Member, a: Options, b: Options, slot: Slot)
    requires a.maxEntryBytes == b.maxEntryBytes && a.maxTotalBytes == b.maxTotalBytes && s.actualTotal == t.actualTotal
    ensures Discard(AfterRead(s, m, a, slot)) == Discard(AfterRead(t, m, b, slot))
  {
  }

  lemma DisposeAlike(lower: string -> string, s: ParseState, t: ParseState, m: Member, a: Options, b: Options)
    requires SameBudgets(a, b) && s.fileCount == t.fileCount && s.declaredTotal == t.declaredTotal && s.actualTotal == t.actualTotal
    ensures Discard(Dispose(lower, s, m, a)) == Discard(Dispose(lower, t, m, b))
  {
    assert a.maxRatio == b.maxRatio && a.maxFiles == b.maxFiles && a.maxEntryBytes == b.maxEntryBytes && a.maxTotalBytes == b.maxTotalBytes;
    var d, e := Dispose(lower, s, m, a), Dispose(lower, t, m, b);
    if SlotOf(lower, m).Some? {
      AfterReadAlike(s, t, m, a, b, SlotOf(lower, m).value);
    }
  }

  lemma RecordForgets(st: ParseState, slot: Slot, entry: Entry)
    ensures Forget(Record(st, slot, entry)) == Record(Forget(st), slot, entry.(content := []))
  {
    assert Bare(st.inputs).Keys == st.inputs.Keys && Bare(st.outputs).Keys == st.outputs.Keys;
    assert Bare(st.inputs[slot.key := entry]) == Bare(st.inputs)[slot.key := entry.(content := [])];
    assert Bare(st.outputs[slot.key := entry]) == Bare(st.outputs)[slot.key := entry.(content := [])];
  }

  lemma OverBudgetForgets(st: ParseState, m: Member, d: Disposition)
    requires d.OverBudget?
    ensures Forget(Apply(st, m, d)) == Apply(Forget(st), m, d)
  {
    RecordForgets(Report(st.(fileCount := st.fileCount + 1), Error(d.code, m.name)), d.slot, Entry(m.name, ToInt64(m.declared), []));
  }

  lemma ApplyForgets(st: ParseState, m: Member, d: Disposition)
    ensures Forget(Apply(st, m, d)) == Apply(Forget(st), m, Discard(d))
  {
    match d
    case OverBudget(code, slot) => OverBudgetForgets(st, m, d);
    case Usable(slot, kept, size) =>
      RecordForgets(st.(fileCount := st.fileCount + 1, declaredTotal := WrapAdd(st.declaredTotal, m.declared), actualTotal := WrapAdd(st.actualTotal, size)),
                    slot, Entry(m.name, ToInt64(size), kept));
    case _ =>
  }

  lemma {:induction false} FoldsAlike(lower: string -> string, ms: seq<Member>, a: Options, b: Options)
    requires SameBudgets(a, b)
    ensures Forget(Fold(lower, ms, a)) == Forget(Fold(lower, ms, b))
  {
    if ms != [] {
      var front, m := ms[..|ms| - 1], ms[|ms| - 1];
      FoldsAlike(lower, front, a, b);
      var s, t := Fold(lower, front, a), Fold(lower, front, b);
      DisposeAlike(lower, s, t, m, a, b);
      ApplyForgets(s, m, Dispose(lower, s, m, a));
      ApplyForgets(t, m, Dispose(lower, t, m, b));
    }
  }

  lemma {:induction false} UnmatchedForgets(keys: seq<string>, entries: map<string, Entry>, others: map<string, Entry>, code: Code)
    ensures Unmatched(keys, entries, others, code) == Unmatched(keys, Bare(entries), Bare(others), code)
  {
    if keys != [] {
      UnmatchedForgets(keys[..|keys| - 1], entries, others, code);
    }
  }

  lemma KeysForget(w: World, inputs: map<string, Entry>, outputs: map<string, Entry>)
    ensures PairKeys(w, inputs, outputs) == PairKeys(w, Bare(inputs), Bare(outputs))
  {
    assert Bare(inputs).Keys == inputs.Keys;
    FilterSame(InBoth(inputs, outputs), InBoth(Bare(inputs), Bare(outputs)), w.order(inputs.Keys));
  }

  lemma {:induction false} FilterSame(p: string -> bool, q: string -> bool, s: seq<string>)
    requires forall x :: p(x) == q(x)
    ensures Filter(p, s) == Filter(q, s)
  {
    if s != [] {
      FilterSame(p, q, s[1..]);
    }
  }

  lemma FinishForgets(w: World, st: ParseState, o: Options)
    ensures Finish(w, st, o).findings == Finish(w, Forget(st), o).findings
    ensures Finish(w, st, o).cases == Finish(w, Forget(st), o).cases
  {
    assert Bare(st.inputs).Keys == st.inputs.Keys && Bare(st.outputs).Keys == st.outputs.Keys;
    UnmatchedForgets(w.order(st.inputs.Keys), st.inputs, st.outputs, OutputMissing);
    UnmatchedForgets(w.order(st.outputs.Keys), st.outputs, st.inputs, InputMissing);
    KeysForget(w, st.inputs, st.outputs);
  }

  /** Two parses with the same budgets that pass the checksum report the same findings and cases. */
  lemma ParsesAgree(w: World, z: ZipFile, a: Options, b: Options)
    requires SameBudgets(a, b)
    requires Rejection(z, WithDefaults(a)) == Rejection(z, WithDefaults(b))
    ensures Parse(w, z, a).findings == Parse(w, z, b).findings && Parse(w, z, a).cases == Parse(w, z, b).cases
  {
    var x, y := WithDefaults(a), WithDefaults(b);
    if Rejection(z, x).None? {
      var s, t := Fold(w.lower, z.members.value, x), Fold(w.lower, z.members.value, y);
      FoldsAlike(w.lower, z.members.value, x, y);
      FinishForgets(w, s, x);
      FinishForgets(w, t, y);
    }
  }

  /** Options the judge loads with: default budgets and the recorded checksum. */
  predicate DefaultBudgets(o: Options) {
    SameBudgets(o, ZERO_OPTIONS)
  }

  predicate TrueChecksum(z: ZipFile, expected: string) {
    z.digest.Some? && EqualFold(TrimSpace(expected), z.digest.value)
  }

  // ----- another execution walks the maps in another order -----

  function Lacking(entries: map<string, Entry>, others: map<string, Entry>): string -> bool {
    (key: string) => key !in others && key in entries
  }

  function Missing(entries: map<string, Entry>, code: Code): string -> Finding {
    (key: string) => Error(code, if key in entries then entries[key].name else "")
  }

  lemma {:induction false} UnmatchedAre(keys: seq<string>, entries: map<string, Entry>, others: map<string, Entry>, code: Code)
    ensures Unmatched(keys, entries, others, code) == MapSeq(Missing(entries, code), Filter(Lacking(entries, others), keys))
  {
    if keys != [] {
      var front, key := keys[..|keys| - 1], keys[|keys| - 1];
      UnmatchedAre(front, entries, others, code);
      assert keys == front + [key];
      FilterOneMore(Lacking(entries, others), front, key);
      var found := Filter(Lacking(entries, others), front);
      assert MapSeq(Missing(entries, code), found + [key]) == MapSeq(Missing(entries, code), found) + [Missing(entries, code)(key)];
    }
  }

  lemma UnmatchedPermuted(w: World, v: World, entries: map<string, Entry>, others: map<string, Entry>, code: Code)
    requires Proper(w) && Proper(v)
    ensures multiset(Unmatched(w.order(entries.Keys), entries, others, code)) == multiset(Unmatched(v.order(entries.Keys), entries, others, code))
  {
    var a, b := w.order(entries.Keys), v.order(entries.Keys);
    assert multiset(a) == multiset(entries.Keys) == multiset(b);
    UnmatchedAre(a, entries, others, code);
    UnmatchedAre(b, entries, others, code);
    FilterPermuted(Lacking(entries, others), a, b);
    Sorting.MapPermuted(Missing(entries, code), Filter(Lacking(entries, others), a), Filter(Lacking(entries, others), b));
  }

  lemma ErrorsPermuted(a: seq<Finding>, b: seq<Finding>)
    requires multiset(a) == multiset(b) && HasErrors(a)
    ensures HasErrors(b)
  {
    SameMembers(a, b);
    var i :| 0 <= i < |a| && a[i].error;
    assert a[i] in b;
  }

  /** The same error-presence and cases, and the same findings up to their order. */
  ghost predicate SameVerdict(a: ParseResult, b: ParseResult) {
    && multiset(a.findings) == multiset(b.findings) && (HasErrors(a.findings) <==> HasErrors(b.findings))
    && a.cases == b.cases && |a.testcases| == |b.testcases|
  }

  lemma FinishElsewhere(w: World, v: World, st: ParseState, o: Options)
    requires Proper(w) && Proper(v) && w.lower == v.lower
    ensures multiset(Finish(w, st, o).findings) == multiset(Finish(v, st, o).findings)
    ensures Finish(w, st, o).cases == Finish(v, st, o).cases && Finish(w, st, o).testcases == Finish(v, st, o).testcases
  {
    UnmatchedPermuted(w, v, st.inputs, st.outputs, OutputMissing);
    UnmatchedPermuted(w, v, st.outputs, st.inputs, InputMissing);
    KeysPermuted(w, v, st.inputs, st.outputs);
  }

  /** One set of bytes parsed twice, whatever the map orders. */
  lemma ExecutionsAgree(w: World, v: World, z: ZipFile, options: Options)
    requires Proper(w) && Proper(v) && w.lower == v.lower
    ensures SameVerdict(Parse(w, z, options), Parse(v, z, options))
  {
    var o := WithDefaults(options);
    var a, b := Parse(w, z, options), Parse(v, z, options);
    if Rejection(z, o).None? {
      FinishElsewhere(w, v, Fold(w.lower, z.members.value, o), o);
      assert multiset(a.findings) == multiset(b.findings) && a.cases == b.cases && a.testcases == b.testcases;
    }
    if HasErrors(a.findings) {
      ErrorsPermuted(a.findings, b.findings);
    }
    if HasErrors(b.findings) {
      ErrorsPermuted(b.findings, a.findings);
    }
  }

  lemma SameLengths(w: World, z: ZipFile, options: Options)
    ensures |Parse(w, z, options).testcases| == |Parse(w, z, options).cases|
  {
  }

  /**
   * With the true checksum, validation at upload, verification and loading find the same errors
   * and the same cases, for broken archives too and although each walks its maps in its own order.
   */
  lemma UploadPredictsJudging(u: World, v: World, w: World, z: ZipFile, options: Options)
    requires Proper(u) && Proper(v) && Proper(w) && u.lower == v.lower == w.lower
    requires DefaultBudgets(options) && TrueChecksum(z, options.expected)
    ensures var validated, verified, loaded :=
              Parse(u, z, ZERO_OPTIONS), Parse(v, z, ZERO_OPTIONS.(expected := options.expected)), Parse(w, z, options.(keepContents := true));
            && SameVerdict(validated, verified) && SameVerdict(verified, loaded)
            && |loaded.testcases| == |validated.cases|
  {
    assert TrimSpace("") == "";
    var verify, load := ZERO_OPTIONS.(expected := options.expected), options.(keepContents := true);
    SameLengths(u, z, ZERO_OPTIONS);
    ParsesAgree(v, z, ZERO_OPTIONS, verify);
    SameLengths(v, z, verify);
    SameLengths(v, z, ZERO_OPTIONS);
    ParsesAgree(v, z, ZERO_OPTIONS, load);
    SameLengths(v, z, load);
    ExecutionsAgree(u, v, z, ZERO_OPTIONS);
    ExecutionsAgree(v, w, z, load);
  }

  ghost predicate NoneCorrupted(findings: seq<Finding>) {
    forall i | 0 <= i < |findings| :: !findings[i].code.ArchiveCorrupted?
  }

  lemma StepNotCorrupted(lower: string -> string, st: ParseState, m: Member, o: Options)
    requires NoneCorrupted(st.findings)
    ensures NoneCorrupted(Step(lower, st, m, o).findings)
  {
    var d := Dispose(lower, st, m, o);
    assert d.OverBudget? || d.Unusable? ==> !d.code.ArchiveCorrupted?;
    assert d.Reported? ==> !d.finding.code.ArchiveCorrupted?;
    ApplyNotCorrupted(st, m, d);
  }

  lemma ApplyNotCorrupted(st: ParseState, m: Member, d: Disposition)
    requires NoneCorrupted(st.findings)
    requires (d.OverBudget? || d.Unusable? ==> !d.code.ArchiveCorrupted?) && (d.Reported? ==> !d.finding.code.ArchiveCorrupted?)
    ensures NoneCorrupted(Apply(st, m, d).findings)
  {
  }

  lemma {:induction false} FoldNotCorrupted(lower: string -> string, ms: seq<Member>, o: Options)
    ensures NoneCorrupted(Fold(lower, ms, o).findings)
  {
    if ms != [] {
      FoldNotCorrupted(lower, ms[..|ms| - 1], o);
      StepNotCorrupted(lower, Fold(lower, ms[..|ms| - 1], o), ms[|ms| - 1], o);
    }
  }

  lemma {:induction false} UnmatchedNotCorrupted(keys: seq<string>, entries: map<string, Entry>, others: map<string, Entry>, code: Code)
    requires !code.ArchiveCorrupted?
    ensures NoneCorrupted(Unmatched(keys, entries, others, code))
  {
    if keys != [] {
      UnmatchedNotCorrupted(keys[..|keys| - 1], entries, others, code);
    }
  }

  lemma FinishNotCorrupted(w: World, st: ParseState, o: Options)
    requires NoneCorrupted(st.findings)
    ensures NoneCorrupted(Finish(w, st, o).findings)
  {
    UnmatchedNotCorrupted(w.order(st.inputs.Keys), st.inputs, st.outputs, OutputMissing);
    UnmatchedNotCorrupted(w.order(st.outputs.Keys), st.outputs, st.inputs, InputMissing);
  }

  /** An archive of admissible size is called corrupted exactly if a checksum is expected and the bytes have another; then nothing else is looked at. */
  lemma WrongChecksumRefused(w: World, z: ZipFile, options: Options)
    requires 0 < z.size <= WithDefaults(options).maxBytes
    ensures var wrong := TrimSpace(options.expected) != "" && !TrueChecksum(z, options.expected);
            && (!NoneCorrupted(Parse(w, z, options).findings) <==> wrong)
            && (wrong ==> Parse(w, z, options) == ParseResult([Error(ArchiveCorrupted, "")], [], []))
  {
    var o := WithDefaults(options);
    assert [Error(ArchiveCorrupted, "")][0].code.ArchiveCorrupted?;
    if Rejection(z, o).None? {
      FoldNotCorrupted(w.lower, z.members.value, o);
      FinishNotCorrupted(w, Fold(w.lower, z.members.value, o), o);
    }
  }

  // ----- what is loaded depends on the bytes alone -----

  /** The options that only keep contents. */
  const JUDGE_OPTIONS := ZERO_OPTIONS.(keepContents := true)

  /** Testcases without the limits they are to be run under. */
  function WithoutLimits(cases: seq<Testcase>): (r: seq<Testcase>)
    ensures |r| == |cases| && forall k | 0 <= k < |r| :: r[k] == cases[k].(timeLimit := 0, memoryKB := 0)
  {
    seq(|cases|, k requires 0 <= k < |cases| => cases[k].(timeLimit := 0, memoryKB := 0))
  }

  lemma DisposeSame(lower: string -> string, st: ParseState, m: Member, a: Options, b: Options)
    requires SameBudgets(a, b) && a.keepContents == b.keepContents
    ensures Dispose(lower, st, m, a) == Dispose(lower, st, m, b)
  {
    assert a.maxRatio == b.maxRatio && a.maxFiles == b.maxFiles && a.maxEntryBytes == b.maxEntryBytes && a.maxTotalBytes == b.maxTotalBytes;
    if SlotOf(lower, m).Some? {
      assert AfterRead(st, m, a, SlotOf(lower, m).value) == AfterRead(st, m, b, SlotOf(lower, m).value);
    }
  }

  lemma {:induction false} FoldSame(lower: string -> string, ms: seq<Member>, a: Options, b: Options)
    requires SameBudgets(a, b) && a.keepContents == b.keepContents
    ensures Fold(lower, ms, a) == Fold(lower, ms, b)
  {
    if ms != [] {
      FoldSame(lower, ms[..|ms| - 1], a, b);
      DisposeSame(lower, Fold(lower, ms[..|ms| - 1], a), ms[|ms| - 1], a, b);
    }
  }

  lemma FinishSame(w: World, st: ParseState, a: Options, b: Options)
    requires b.timeLimit == 0 && b.memoryKB == 0
    ensures WithoutLimits(Finish(w, st, a).testcases) == Finish(w, st, b).testcases
    ensures Finish(w, st, a).findings == Finish(w, st, b).findings
  {
  }

  lemma LimitsOnly(w: World, z: ZipFile, options: Options)
    requires DefaultBudgets(options) && options.keepContents && TrueChecksum(z, options.expected)
    ensures WithoutLimits(Parse(w, z, options).testcases) == Parse(w, z, JUDGE_OPTIONS).testcases
    ensures Parse(w, z, options).findings == Parse(w, z, JUDGE_OPTIONS).findings
  {
    assert TrimSpace("") == "";
    var x, y := WithDefaults(options), WithDefaults(JUDGE_OPTIONS);
    if Rejection(z, y).None? {
      FoldSame(w.lower, z.members.value, x, y);
      FinishSame(w, Fold(w.lower, z.members.value, y), x, y);
    }
  }

  /** A clean load gives the contents any clean load of the same object gives. */
  lemma LoadsTheObject(w: World, v: World, z: ZipFile, options: Options)
    requires Proper(w) && Proper(v) && w.lower == v.lower
    requires DefaultBudgets(options) && options.keepContents && TrueChecksum(z, options.expected)
    requires !HasErrors(Parse(w, z, options).findings)
    ensures !HasErrors(Parse(v, z, JUDGE_OPTIONS).findings)
    ensures WithoutLimits(Parse(w, z, options).testcases) == Parse(v, z, JUDGE_OPTIONS).testcases
  {
    LimitsOnly(w, z, options);
    AcceptedIff(w, z, JUDGE_OPTIONS);
    OrderDoesNotMatter(w, v, z, z, JUDGE_OPTIONS);
  }
}
