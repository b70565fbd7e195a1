/** When two executions list the findings of one archive in the same order: the unmatched members are found by walking Go maps. */
module FindingsOrder {
  import opened Wrappers
  import opened Sorting
  import opened Text
  import opened Archive
  import opened ArchiveMeaning
  import opened ArchiveResults

  // ----- different keys have different file names -----

  /** Every entry's file name leads to its own slot. */
  ghost predicate NamesLead(slotOf: string -> Option<Slot>, entries: map<string, Entry>, kind: Kind) {
    forall key | key in entries :: slotOf(entries[key].name) == Some(Slot(kind, key))
  }

  ghost predicate AllLead(slotOf: string -> Option<Slot>, st: ParseState) {
    NamesLead(slotOf, st.inputs, Input) && NamesLead(slotOf, st.outputs, Output)
  }

  lemma RecordLeads(slotOf: string -> Option<Slot>, st: ParseState, slot: Slot, entry: Entry)
    requires AllLead(slotOf, st) && slotOf(entry.name) == Some(slot)
    ensures AllLead(slotOf, Record(st, slot, entry))
  {
    assert slot == Slot(slot.kind, slot.key);
  }

  lemma ApplyLeads(slotOf: string -> Option<Slot>, st: ParseState, m: Member, d: Disposition)
    requires AllLead(slotOf, st) && (d.OverBudget? || d.Usable? ==> slotOf(m.name) == Some(d.slot))
    ensures AllLead(slotOf, Apply(st, m, d))
  {
    var counted := st.(fileCount := st.fileCount + 1);
    match d
    case OverBudget(code, slot) =>
      RecordLeads(slotOf, Report(counted, Error(code, m.name)), slot, Entry(m.name, ToInt64(m.declared), []));
    case Usable(slot, kept, size) =>
      RecordLeads(slotOf, counted.(declaredTotal := WrapAdd(st.declaredTotal, m.declared), actualTotal := WrapAdd(st.actualTotal, size)),
                  slot, Entry(m.name, ToInt64(size), kept));
    case _ =>
  }

  lemma DisposedSlot(lower: string -> string, st: ParseState, m: Member, o: Options)
    ensures var d := Dispose(lower, st, m, o); d.OverBudget? || d.Usable? ==> SlotOf(lower, m) == Some(d.slot)
  {
  }

  lemma {:induction false} FoldLeads(lower: string -> string, slotOf: string -> Option<Slot>, ms: seq<Member>, o: Options)
    requires forall m: Member :: slotOf(m.name) == SlotOf(lower, m)
    ensures AllLead(slotOf, Fold(lower, ms, o))
  {
    if ms != [] {
      var front, m := ms[..|ms| - 1], ms[|ms| - 1];
      FoldLeads(lower, slotOf, front, o);
      DisposedSlot(lower, Fold(lower, front, o), m, o);
      ApplyLeads(slotOf, Fold(lower, front, o), m, Dispose(lower, Fold(lower, front, o), m, o));
    }
  }

  function SlotOfName(lower: string -> string): string -> Option<Slot> {
    (name: string) => Classify(lower, Normalize(name))
  }

  // ----- the members without a partner, as each execution lists them -----

  function Alone(w: World, entries: map<string, Entry>, others: map<string, Entry>): seq<string> {
    Filter(Lacking(entries, others), w.order(entries.Keys))
  }

  lemma FilteredSet(keep: string -> bool, listed: seq<string>, whole: set<string>, part: set<string>)
    requires multiset(listed) == multiset(whole) && forall x :: x in part <==> x in whole && keep(x)
    ensures multiset(Filter(keep, listed)) == multiset(part) && |Filter(keep, listed)| == |part|
  {
    forall x ensures multiset(Filter(keep, listed))[x] == multiset(part)[x] {
      FilterMultiplicity(keep, listed, x);
    }
    assert multiset(Filter(keep, listed)) == multiset(part);
    assert |Filter(keep, listed)| == |multiset(Filter(keep, listed))| == |multiset(part)|;
  }

  lemma AloneAre(w: World, entries: map<string, Entry>, others: map<string, Entry>)
    requires Proper(w)
    ensures multiset(Alone(w, entries, others)) == multiset(entries.Keys - others.Keys)
    ensures |Alone(w, entries, others)| == |entries.Keys - others.Keys|
  {
    FilteredSet(Lacking(entries, others), w.order(entries.Keys), entries.Keys, entries.Keys - others.Keys);
  }

  lemma ShortLists(a: seq<string>, b: seq<string>)
    requires multiset(a) == multiset(b) && |a| <= 1
    ensures a == b
  {
    assert |a| == |multiset(a)| == |multiset(b)| == |b|;
    SameMembers(a, b);
    if |a| == 1 {
      assert a[0] in b;
    }
  }

  /** One key alone can be listed in one way. */
  lemma OneAlone(w: World, v: World, entries: map<string, Entry>, others: map<string, Entry>)
    requires Proper(w) && Proper(v) && |entries.Keys - others.Keys| <= 1
    ensures Alone(w, entries, others) == Alone(v, entries, others)
  {
    AloneAre(w, entries, others);
    AloneAre(v, entries, others);
    ShortLists(Alone(w, entries, others), Alone(v, entries, others));
  }

  function Reversed(s: seq<string>): (r: seq<string>)
    ensures multiset(r) == multiset(s)
  {
    if s == [] then []
    else
      assert s == [s[0]] + s[1..];
      Reversed(s[1..]) + [s[0]]
  }

  /** An execution that walks every map the other way round. */
  function Backwards(w: World): World {
    World(w.lower, (keys: set<string>) => Reversed(w.order(keys)))
  }

  lemma {:induction false} ReversedFilter(keep: string -> bool, s: seq<string>)
    ensures Filter(keep, Reversed(s)) == Reversed(Filter(keep, s))
  {
    if s != [] {
      ReversedFilter(keep, s[1..]);
      FilterOneMore(keep, Reversed(s[1..]), s[0]);
      var rest := Filter(keep, s[1..]);
      assert ([s[0]] + rest)[1..] == rest;
    }
  }

  lemma {:induction false} ReversedFirst(s: seq<string>)
    requires s != []
    ensures |Reversed(s)| == |s| && Reversed(s)[0] == s[|s| - 1]
  {
    if |s| > 1 {
      ReversedFirst(s[1..]);
    } else {
      assert s[1..] == [];
    }
  }

  lemma EndsDiffer(keys: seq<string>, whole: set<string>)
    requires multiset(keys) == multiset(whole) && |keys| >= 2
    ensures keys[0] in whole && keys[|keys| - 1] in whole && keys[0] != keys[|keys| - 1]
  {
    var last := |keys| - 1;
    assert keys[0] in multiset(keys) && keys[last] in multiset(keys);
    assert multiset(keys)[keys[0]] <= 1;
    if keys[0] == keys[last] {
      TwiceCounts(keys, 0, |keys| - 1);
      assert false;
    }
  }

  lemma NamesDiffer(slotOf: string -> Option<Slot>, entries: map<string, Entry>, kind: Kind, code: Code, keys: seq<string>, back: seq<string>)
    requires NamesLead(slotOf, entries, kind) && |back| == |keys| >= 2
    requires keys[0] in entries && back[0] in entries && keys[0] != back[0]
    ensures MapSeq(Missing(entries, code), keys) != MapSeq(Missing(entries, code), back)
  {
    assert slotOf(entries[keys[0]].name) != slotOf(entries[back[0]].name);
    assert MapSeq(Missing(entries, code), keys)[0] != MapSeq(Missing(entries, code), back)[0];
  }

  /** Two keys alone are listed in two ways, and the files they name differ. */
  lemma TwoAlone(w: World, slotOf: string -> Option<Slot>, entries: map<string, Entry>, others: map<string, Entry>, kind: Kind, code: Code)
    requires Proper(w) && NamesLead(slotOf, entries, kind) && |entries.Keys - others.Keys| >= 2
    ensures MapSeq(Missing(entries, code), Alone(w, entries, others)) != MapSeq(Missing(entries, code), Alone(Backwards(w), entries, others))
  {
    var there, back := Alone(w, entries, others), Alone(Backwards(w), entries, others);
    AloneAre(w, entries, others);
    assert back == Reversed(there) by { ReversedFilter(Lacking(entries, others), w.order(entries.Keys)); }
    ReversedFirst(there);
    EndsDiffer(there, entries.Keys - others.Keys);
    NamesDiffer(slotOf, entries, kind, code, there, back);
  }

  // ----- the whole list -----

  function InputsAlone(w: World, st: ParseState): seq<Finding> {
    MapSeq(Missing(st.inputs, OutputMissing), Alone(w, st.inputs, st.outputs))
  }

  function OutputsAlone(w: World, st: ParseState): seq<Finding> {
    MapSeq(Missing(st.outputs, InputMissing), Alone(w, st.outputs, st.inputs))
  }

  function Ending(w: World, st: ParseState): seq<Finding> {
    if PairKeys(w, st.inputs, st.outputs) == [] then [Error(ArchiveEmpty, "")] else []
  }

  lemma FinishLists(w: World, st: ParseState, o: Options)
    ensures Finish(w, st, o).findings == st.findings + InputsAlone(w, st) + OutputsAlone(w, st) + Ending(w, st)
  {
    UnmatchedAre(w.order(st.inputs.Keys), st.inputs, st.outputs, OutputMissing);
    UnmatchedAre(w.order(st.outputs.Keys), st.outputs, st.inputs, InputMissing);
  }

  lemma PartsAgree(a: seq<Finding>, b: seq<Finding>, c: seq<Finding>, d: seq<Finding>, x: seq<Finding>, y: seq<Finding>)
    requires |b| == |x| && |c| == |y|
    ensures a + b + c + d == a + x + y + d <==> b == x && c == y
  {
    if a + b + c + d == a + x + y + d {
      var all := a + b + c + d;
      assert b == all[|a|..|a| + |b|] == x;
      assert c == all[|a| + |b|..|a| + |b| + |c|] == y;
    }
  }

  lemma PartsLengths(w: World, v: World, st: ParseState)
    requires Proper(w) && Proper(v) && w.lower == v.lower
    ensures |InputsAlone(w, st)| == |InputsAlone(v, st)| && |OutputsAlone(w, st)| == |OutputsAlone(v, st)|
    ensures Ending(w, st) == Ending(v, st)
  {
    AloneAre(w, st.inputs, st.outputs);
    AloneAre(v, st.inputs, st.outputs);
    AloneAre(w, st.outputs, st.inputs);
    AloneAre(v, st.outputs, st.inputs);
    KeysPermuted(w, v, st.inputs, st.outputs);
  }

  lemma ListsAgree(w: World, v: World, st: ParseState, o: Options, forth: seq<Finding>, back: seq<Finding>)
    requires Proper(w) && Proper(v) && w.lower == v.lower
    requires forth == Finish(w, st, o).findings && back == Finish(v, st, o).findings
    ensures forth == back <==> InputsAlone(w, st) == InputsAlone(v, st) && OutputsAlone(w, st) == OutputsAlone(v, st)
  {
    FinishLists(w, st, o);
    FinishLists(v, st, o);
    PartsLengths(w, v, st);
    PartsAgree(st.findings, InputsAlone(w, st), OutputsAlone(w, st), Ending(w, st), InputsAlone(v, st), OutputsAlone(v, st));
  }

  /** At most one input without its output, and at most one output without its input. */
  predicate FewAlone(st: ParseState) {
    |st.inputs.Keys - st.outputs.Keys| <= 1 && |st.outputs.Keys - st.inputs.Keys| <= 1
  }

  lemma ManyAlone(u: World, slotOf: string -> Option<Slot>, st: ParseState, o: Options)
    requires Proper(u) && AllLead(slotOf, st) && !FewAlone(st)
    ensures Proper(Backwards(u)) && Finish(Backwards(u), st, o).findings != Finish(u, st, o).findings
  {
    ListsAgree(u, Backwards(u), st, o, Finish(u, st, o).findings, Finish(Backwards(u), st, o).findings);
    if |st.inputs.Keys - st.outputs.Keys| > 1 {
      TwoAlone(u, slotOf, st.inputs, st.outputs, Input, OutputMissing);
    } else {
      TwoAlone(u, slotOf, st.outputs, st.inputs, Output, InputMissing);
    }
  }

  lemma FewAgree(u: World, v: World, st: ParseState, o: Options)
    requires Proper(u) && Proper(v) && u.lower == v.lower && FewAlone(st)
    ensures Finish(v, st, o).findings == Finish(u, st, o).findings
  {
    OneAlone(u, v, st.inputs, st.outputs);
    OneAlone(u, v, st.outputs, st.inputs);
    ListsAgree(u, v, st, o, Finish(u, st, o).findings, Finish(v, st, o).findings);
  }

  lemma ManyVary(w: World, ms: seq<Member>, o: Options, st: ParseState)
    requires Proper(w) && st == Fold(w.lower, ms, o) && !FewAlone(st)
    ensures Proper(Backwards(w)) && Finish(Backwards(w), st, o).findings != Finish(w, st, o).findings
  {
    FoldLeads(w.lower, SlotOfName(w.lower), ms, o);
    ManyAlone(w, SlotOfName(w.lower), st, o);
  }

  /**
   * All executions list the same findings exactly if the archive is refused before its members are
   * read, or at most one input and at most one output among them lacks its partner.
   */
  lemma SameFindingsIff(u: World, z: ZipFile, options: Options)
    requires Proper(u)
    ensures (forall v: World | Proper(v) && v.lower == u.lower :: Parse(v, z, options).findings == Parse(u, z, options).findings)
       <==> Rejection(z, WithDefaults(options)).Some? || FewAlone(Fold(u.lower, z.members.value, WithDefaults(options)))
  {
    var o := WithDefaults(options);
    if Rejection(z, o).None? {
      var st := Fold(u.lower, z.members.value, o);
      if FewAlone(st) {
        forall v: World | Proper(v) && v.lower == u.lower ensures Parse(v, z, options).findings == Parse(u, z, options).findings {
          FewAgree(u, v, st, o);
        }
      } else {
        ManyVary(u, z.members.value, o, st);
        assert Parse(Backwards(u), z, options).findings != Parse(u, z, options).findings;
      }
    }
  }

  /** The keys of one kind that the members' names give. */
  function NamedKeys(lower: string -> string, members: seq<Member>, kind: Kind): set<string> {
    set m | m in members && TakesPart()(m) && SlotOf(lower, m).Some? && SlotOf(lower, m).value.kind == kind :: SlotOf(lower, m).value.key
  }

  lemma RecordedKeys(lower: string -> string, entries: map<string, Entry>, kind: Kind, members: seq<Member>, keep: bool)
    requires MapOk(lower, entries, kind, members, keep)
    ensures entries.Keys == NamedKeys(lower, members, kind)
  {
    forall key ensures key in entries.Keys <==> key in NamedKeys(lower, members, kind) {
      var holders := Holders(lower, members, Slot(kind, key));
      if key in entries {
        assert holders[0] in holders;
        assert HasSlot(lower, Slot(kind, key))(holders[0]);
      }
      if key in NamedKeys(lower, members, kind) {
        var m :| m in members && TakesPart()(m) && SlotOf(lower, m).Some? && SlotOf(lower, m).value.kind == kind && SlotOf(lower, m).value.key == key;
        assert SlotOf(lower, m).value == Slot(kind, key) && m in holders;
      }
    }
  }

  /** For members with no other defect the condition is one on their names. */
  lemma NamesDecide(u: World, z: ZipFile, options: Options)
    requires Proper(u) && Rejection(z, WithDefaults(options)).None?
    requires WithinBudget(u.lower, z.members.value, WithDefaults(options)) && OneEach(u.lower, z.members.value)
    ensures var inputs, outputs := NamedKeys(u.lower, z.members.value, Input), NamedKeys(u.lower, z.members.value, Output);
            (forall v: World | Proper(v) && v.lower == u.lower :: Parse(v, z, options).findings == Parse(u, z, options).findings)
            <==> |inputs - outputs| <= 1 && |outputs - inputs| <= 1
  {
    var o := WithDefaults(options);
    SameFindingsIff(u, z, options);
    NamedAlone(u.lower, z.members.value, o);
  }

  lemma NamedAlone(lower: string -> string, members: seq<Member>, o: Options)
    requires o.maxRatio > 0 && WithinBudget(lower, members, o) && OneEach(lower, members)
    ensures var inputs, outputs := NamedKeys(lower, members, Input), NamedKeys(lower, members, Output);
            FewAlone(Fold(lower, members, o)) <==> |inputs - outputs| <= 1 && |outputs - inputs| <= 1
  {
    var st := Fold(lower, members, o);
    CleanIff(lower, members, o);
    RecordedKeys(lower, st.inputs, Input, members, o.keepContents);
    RecordedKeys(lower, st.outputs, Output, members, o.keepContents);
  }

  // ----- an archive whose findings come in two orders -----

  lemma NamedInput(lower: string -> string, c: char)
    requires lower("in") == "in" && c != '/' && c != '\\' && c != '.'
    ensures Normalize([c] + ".in") == [c] + ".in" && !Ignored([c] + ".in")
    ensures Classify(lower, [c] + ".in") == Some(Slot(Input, [c]))
  {
    var name := [c] + ".in";
    SplitPrefix(name, [], '/');
    assert name + [] == name;
    assert Split(name, '/') == [name];
    assert LastIndex(name, '/') == -1 && LastIndex(name, '.') == 1;
    assert name[0..] == name && name[2..] == "in" && name[..1] == [c];
  }

  function LoneInput(c: char): Member {
    Member([c] + ".in", false, 1, 1, [0], true)
  }

  lemma LoneInputDisposed(lower: string -> string, st: ParseState, c: char, o: Options)
    requires lower("in") == "in" && c != '/' && c != '\\' && c != '.'
    requires o == WithDefaults(ZERO_OPTIONS) && st.fileCount <= 1 && st.declaredTotal <= 1 && st.actualTotal <= 1
    ensures Dispose(lower, st, LoneInput(c), o) == Usable(Slot(Input, [c]), [], 1)
  {
    NamedInput(lower, c);
    assert SlotOf(lower, LoneInput(c)) == Some(Slot(Input, [c]));
    LoneInputRead(st, LoneInput(c), o, Slot(Input, [c]));
  }

  lemma LoneInputRead(st: ParseState, m: Member, o: Options, slot: Slot)
    requires m.content == [0] && m.declared == 1 && m.compressed == 1 && m.intact
    requires o == WithDefaults(ZERO_OPTIONS) && st.declaredTotal <= 1 && st.actualTotal <= 1
    ensures DisposeNamed(st, m, o, slot) == Usable(slot, [], 1)
  {
    assert AfterRead(st, m, o, slot) == Usable(slot, [], 1);
  }

  function WithLoneInput(st: ParseState, c: char): ParseState
    requires st.declaredTotal <= 1 && st.actualTotal <= 1
  {
    ParseState(st.inputs[[c] := Entry([c] + ".in", 1, [])], st.outputs, st.declaredTotal + 1, st.actualTotal + 1, st.fileCount + 1, st.findings)
  }

  lemma LoneInputApplied(st: ParseState, c: char, d: Disposition)
    requires st.declaredTotal <= 1 && st.actualTotal <= 1 && [c] !in st.inputs
    requires d == Usable(Slot(Input, [c]), [], 1)
    ensures Apply(st, LoneInput(c), d) == WithLoneInput(st, c)
  {
  }

  lemma LoneInputStep(lower: string -> string, st: ParseState, c: char, o: Options)
    requires lower("in") == "in" && c != '/' && c != '\\' && c != '.'
    requires o == WithDefaults(ZERO_OPTIONS) && st.fileCount <= 1 && st.declaredTotal <= 1 && st.actualTotal <= 1
    requires [c] !in st.inputs
    ensures Step(lower, st, LoneInput(c), o) == WithLoneInput(st, c)
  {
    LoneInputDisposed(lower, st, c, o);
    LoneInputApplied(st, c, Dispose(lower, st, LoneInput(c), o));
  }

  lemma FoldOneMore(lower: string -> string, ms: seq<Member>, m: Member, o: Options)
    ensures Fold(lower, ms + [m], o) == Step(lower, Fold(lower, ms, o), m, o)
  {
    assert (ms + [m])[..|ms|] == ms;
  }

  lemma LoneInputs()
    ensures WithLoneInput(WithLoneInput(EMPTY_STATE, 'a'), 'b').inputs == map["a" := Entry("a.in", 1, []), "b" := Entry("b.in", 1, [])]
  {
    assert ['a'] + ".in" == "a.in" && ['b'] + ".in" == "b.in";
    assert WithLoneInput(EMPTY_STATE, 'a').inputs == map["a" := Entry("a.in", 1, [])];
  }

  lemma LoneInputsFold(lower: string -> string, o: Options) returns (st: ParseState)
    requires lower("in") == "in" && o == WithDefaults(ZERO_OPTIONS)
    ensures st == Fold(lower, [LoneInput('a'), LoneInput('b')], o) && st.findings == [] && st.outputs == map[]
    ensures st.inputs == map["a" := Entry("a.in", 1, []), "b" := Entry("b.in", 1, [])]
  {
    var a, b := LoneInput('a'), LoneInput('b');
    assert [] + [a] == [a] && [a] + [b] == [a, b];
    FoldOneMore(lower, [], a, o);
    FoldOneMore(lower, [a], b, o);
    LoneInputStep(lower, EMPTY_STATE, 'a', o);
    var one := WithLoneInput(EMPTY_STATE, 'a');
    LoneInputStep(lower, one, 'b', o);
    st := WithLoneInput(one, 'b');
    LoneInputs();
  }

  lemma TwoAreMany(st: ParseState, a: Entry, b: Entry)
    requires st.inputs == map["a" := a, "b" := b] && st.outputs == map[]
    ensures !FewAlone(st)
  {
    assert st.inputs.Keys - st.outputs.Keys == {"a", "b"};
    assert |{"a", "b"}| == 2;
  }

  /** The order of the findings is one execution's own: two inputs without outputs, and maps walked both ways. */
  lemma FindingsOrderVaries(w: World, z: ZipFile)
    requires Proper(w) && w.lower("in") == "in"
    requires z == ZipFile(100, None, Some([LoneInput('a'), LoneInput('b')]))
    ensures Proper(Backwards(w)) && Parse(w, z, ZERO_OPTIONS).findings != Parse(Backwards(w), z, ZERO_OPTIONS).findings
  {
    var o := WithDefaults(ZERO_OPTIONS);
    assert TrimSpace("") == "";
    var st := LoneInputsFold(w.lower, o);
    TwoAreMany(st, st.inputs["a"], st.inputs["b"]);
    ManyVary(w, z.members.value, o, st);
  }
}
