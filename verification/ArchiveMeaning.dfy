/** What parseArchive accepts, said without its loop: a perfect pairing within budget. */
module ArchiveMeaning {
  import opened Wrappers
  import opened Sorting
  import opened Sums
  import opened Text
  import opened NaturalOrder
  import opened Archive

  // ----- acceptance -----

  function IsFile(): Member -> bool {
    (m: Member) => !m.dir
  }

  /** The members that take part: files that are not ignored. */
  function TakesPart(): Member -> bool {
    (m: Member) => !m.dir && !Ignored(Normalize(m.name))
  }

  function HasSlot(lower: string -> string, slot: Slot): Member -> bool {
    (m: Member) => !m.dir && !Ignored(Normalize(m.name)) && SlotOf(lower, m) == Some(slot)
  }

  function Holders(lower: string -> string, members: seq<Member>, slot: Slot): seq<Member> {
    Filter(HasSlot(lower, slot), members)
  }

  function Declared(): Member -> nat {
    (m: Member) => m.declared
  }

  function Actual(): Member -> nat {
    (m: Member) => |m.content|
  }

  /** A member on its own: named, readable, not empty, within the budgets of one entry. */
  predicate MemberOk(lower: string -> string, m: Member, o: Options) {
    && SlotOf(lower, m).Some?
    && m.declared <= o.maxEntryBytes && m.declared <= m.compressed * o.maxRatio
    && 0 < |m.content| <= o.maxEntryBytes && m.intact
  }

  /** All members together stay within budget, in plain arithmetic. */
  ghost predicate WithinBudget(lower: string -> string, members: seq<Member>, o: Options) {
    && (Filter(IsFile(), members) == [] || |Filter(IsFile(), members)| <= o.maxFiles)
    && (forall m | m in members && TakesPart()(m) :: MemberOk(lower, m, o))
    && Sum(Declared(), Filter(TakesPart(), members)) <= o.maxTotalBytes
    && Sum(Actual(), Filter(TakesPart(), members)) <= o.maxTotalBytes
  }

  /** No slot is claimed twice. */
  ghost predicate OneEach(lower: string -> string, members: seq<Member>) {
    forall slot :: |Holders(lower, members, slot)| <= 1
  }

  /** Every case has its input and its output. */
  ghost predicate Paired(lower: string -> string, members: seq<Member>) {
    forall key :: |Holders(lower, members, Slot(Input, key))| == |Holders(lower, members, Slot(Output, key))|
  }

  ghost predicate Acceptable(lower: string -> string, members: seq<Member>, o: Options) {
    && WithinBudget(lower, members, o) && OneEach(lower, members) && Paired(lower, members)
    && Filter(TakesPart(), members) != []
  }

  // ----- the guards compute what they mean -----

  lemma ProductFits(a: nat, b: nat)
    requires b > 0
    ensures a <= (TWO_64 - 1) / b ==> a * b < TWO_64
    ensures a > (TWO_64 - 1) / b ==> a * b >= TWO_64
  {
    var q := (TWO_64 - 1) / b;
    assert q * b <= TWO_64 - 1 < (q + 1) * b;
    if a <= q {
      assert a * b <= q * b;
    } else {
      assert a * b >= (q + 1) * b;
    }
  }

  /** The ratio guard never wraps. */
  lemma RatioIsExact(uncompressed: U64, compressed: U64, maxRatio: U64)
    requires maxRatio > 0
    ensures CompressionRatioExceeded(uncompressed, compressed, maxRatio) <==> uncompressed > compressed * maxRatio
  {
    ProductFits(compressed, maxRatio);
    if uncompressed == 0 {
      assert compressed * maxRatio >= 0;
    }
  }

  /** Nor does the guard on a total that has stayed within budget. */
  lemma TotalIsExact(size: U64, total: U64, max: U64)
    requires total <= max
    ensures OverTotal(size, total, max) <==> total + size > max
    ensures !OverTotal(size, total, max) ==> WrapAdd(total, size) == total + size
  {
  }

  // ----- one member more -----

  /** A member that takes no part changes only the file count. */
  lemma IdleMember(lower: string -> string, ms: seq<Member>, m: Member, slot: Slot)
    requires !TakesPart()(m)
    ensures Filter(TakesPart(), ms + [m]) == Filter(TakesPart(), ms)
    ensures Holders(lower, ms + [m], slot) == Holders(lower, ms, slot)
  {
    FilterOneMore(TakesPart(), ms, m);
    FilterOneMore(HasSlot(lower, slot), ms, m);
  }

  lemma BusyMember(lower: string -> string, ms: seq<Member>, m: Member)
    requires TakesPart()(m)
    ensures Filter(TakesPart(), ms + [m]) == Filter(TakesPart(), ms) + [m]
    ensures forall slot :: Holders(lower, ms + [m], slot)
                           == if SlotOf(lower, m) == Some(slot) then Holders(lower, ms, slot) + [m] else Holders(lower, ms, slot)
    ensures Sum(Declared(), Filter(TakesPart(), ms + [m])) == Sum(Declared(), Filter(TakesPart(), ms)) + m.declared
    ensures Sum(Actual(), Filter(TakesPart(), ms + [m])) == Sum(Actual(), Filter(TakesPart(), ms)) + |m.content|
  {
    FilterOneMore(TakesPart(), ms, m);
    SumAppend(Declared(), Filter(TakesPart(), ms), m);
    SumAppend(Actual(), Filter(TakesPart(), ms), m);
    forall slot ensures Holders(lower, ms + [m], slot)
                        == if SlotOf(lower, m) == Some(slot) then Holders(lower, ms, slot) + [m] else Holders(lower, ms, slot)
    {
      FilterOneMore(HasSlot(lower, slot), ms, m);
    }
  }

  lemma ErrorsAppend(findings: seq<Finding>, f: Finding)
    ensures HasErrors(findings + [f]) <==> HasErrors(findings) || f.error
  {
    var r := findings + [f];
    assert r[|findings|] == f;
    if HasErrors(findings) {
      var i :| 0 <= i < |findings| && findings[i].error;
      assert r[i].error;
    }
  }

  // ----- a state without errors -----

  function EntryOf(m: Member, keep: bool): Entry {
    Entry(m.name, ToInt64(|m.content|), if keep then m.content else [])
  }

  ghost predicate MapOk(lower: string -> string, entries: map<string, Entry>, kind: Kind, members: seq<Member>, keep: bool) {
    forall key :: && (key in entries <==> Holders(lower, members, Slot(kind, key)) != [])
                  && (key in entries ==> entries[key] == EntryOf(Holders(lower, members, Slot(kind, key))[0], keep))
  }

  ghost predicate CountsOk(st: ParseState, members: seq<Member>, o: Options) {
    && st.declaredTotal == Sum(Declared(), Filter(TakesPart(), members)) <= o.maxTotalBytes
    && st.actualTotal == Sum(Actual(), Filter(TakesPart(), members)) <= o.maxTotalBytes
    && |st.inputs| + |st.outputs| == |Filter(TakesPart(), members)|
  }

  ghost predicate Sound(lower: string -> string, st: ParseState, members: seq<Member>, o: Options) {
    && CountsOk(st, members, o)
    && MapOk(lower, st.inputs, Input, members, o.keepContents)
    && MapOk(lower, st.outputs, Output, members, o.keepContents)
  }

  /** The disposition of a member that is counted and takes part. */
  lemma UsableMeans(lower: string -> string, st: ParseState, m: Member, o: Options)
    requires TakesPart()(m) && st.fileCount + 1 <= o.maxFiles && o.maxRatio > 0
    requires st.declaredTotal <= o.maxTotalBytes && st.actualTotal <= o.maxTotalBytes
    ensures Dispose(lower, st, m, o).Usable? <==>
              && MemberOk(lower, m, o)
              && st.declaredTotal + m.declared <= o.maxTotalBytes && st.actualTotal + |m.content| <= o.maxTotalBytes
    ensures Dispose(lower, st, m, o).Usable? ==>
              Dispose(lower, st, m, o) == Usable(SlotOf(lower, m).value, if o.keepContents then m.content else [], |m.content|)
    ensures Dispose(lower, st, m, o).Reported? ==> Dispose(lower, st, m, o).finding.error
    ensures !Dispose(lower, st, m, o).Directory?
  {
    TotalIsExact(m.declared, st.declaredTotal, o.maxTotalBytes);
    RatioIsExact(m.declared, m.compressed, o.maxRatio);
    TotalIsExact(|m.content|, st.actualTotal, o.maxTotalBytes);
  }

  /** The code a member is reported with, if it is. */
  function CodeOf(d: Disposition): Option<Code> {
    match d
    case Reported(finding) => Some(finding.code)
    case OverBudget(code, _) => Some(code)
    case Unusable(code) => Some(code)
    case _ => None
  }

  /** What a finding says of its member, whatever else is wrong with it. */
  predicate Blames(lower: string -> string, st: ParseState, m: Member, o: Options, code: Code) {
    match code
    case FileCountExceeded => st.fileCount >= o.maxFiles
    case FileIgnored => Ignored(Normalize(m.name))
    case FileNameInvalid => SlotOf(lower, m).None?
    case EntryTooLarge => m.declared > o.maxEntryBytes || |m.content| > o.maxEntryBytes
    case TotalSizeExceeded => st.declaredTotal + m.declared > o.maxTotalBytes || st.actualTotal + |m.content| > o.maxTotalBytes
    case CompressionExceeded => m.declared > m.compressed * o.maxRatio
    case ZipInvalid => !m.intact
    case EntryEmpty => m.content == []
    case _ => false
  }

  lemma ReadFindingsAreTrue(lower: string -> string, st: ParseState, m: Member, o: Options, slot: Slot)
    requires st.actualTotal <= o.maxTotalBytes
    ensures CodeOf(AfterRead(st, m, o, slot)).Some? ==> Blames(lower, st, m, o, CodeOf(AfterRead(st, m, o, slot)).value)
  {
    TotalIsExact(|m.content|, st.actualTotal, o.maxTotalBytes);
  }

  lemma NamedFindingsAreTrue(lower: string -> string, st: ParseState, m: Member, o: Options, slot: Slot)
    requires o.maxRatio > 0 && st.declaredTotal <= o.maxTotalBytes && st.actualTotal <= o.maxTotalBytes
    ensures CodeOf(DisposeNamed(st, m, o, slot)).Some? ==> Blames(lower, st, m, o, CodeOf(DisposeNamed(st, m, o, slot)).value)
  {
    DeclaredFindingsAreTrue(lower, st, m, o, slot, DisposeNamed(st, m, o, slot));
    ReadFindingsAreTrue(lower, st, m, o, slot);
  }

  lemma DeclaredFindingsAreTrue(lower: string -> string, st: ParseState, m: Member, o: Options, slot: Slot, d: Disposition)
    requires o.maxRatio > 0 && st.declaredTotal <= o.maxTotalBytes && d == DisposeNamed(st, m, o, slot)
    ensures d == AfterRead(st, m, o, slot) || (CodeOf(d).Some? && Blames(lower, st, m, o, CodeOf(d).value))
  {
    TotalIsExact(m.declared, st.declaredTotal, o.maxTotalBytes);
    RatioIsExact(m.declared, m.compressed, o.maxRatio);
  }

  /** A finding is never about a defect the member does not have. */
  lemma FindingsAreTrue(lower: string -> string, st: ParseState, m: Member, o: Options)
    requires o.maxRatio > 0 && st.declaredTotal <= o.maxTotalBytes && st.actualTotal <= o.maxTotalBytes
    ensures CodeOf(Dispose(lower, st, m, o)).Some? ==> !m.dir && Blames(lower, st, m, o, CodeOf(Dispose(lower, st, m, o)).value)
  {
    if SlotOf(lower, m).Some? {
      NamedFindingsAreTrue(lower, st, m, o, SlotOf(lower, m).value);
    }
  }

  lemma RecordErrors(st: ParseState, slot: Slot, entry: Entry)
    ensures HasErrors(Record(st, slot, entry).findings) <==>
              HasErrors(st.findings) || slot.key in if slot.kind.Output? then st.outputs else st.inputs
    ensures slot.key !in (if slot.kind.Output? then st.outputs else st.inputs) ==>
              Record(st, slot, entry) == if slot.kind.Output? then st.(outputs := st.outputs[slot.key := entry])
                                         else st.(inputs := st.inputs[slot.key := entry])
  {
    ErrorsAppend(st.findings, Error(CaseDuplicate, entry.name));
  }

  /** A step is clean exactly when its member is idle, or is usable and the first of its slot. */
  lemma ApplyClean(st: ParseState, m: Member, d: Disposition)
    ensures HasErrors(Apply(st, m, d).findings) <==>
              || HasErrors(st.findings)
              || (d.Reported? && d.finding.error) || d.OverBudget? || d.Unusable?
              || (d.Usable? && d.slot.key in if d.slot.kind.Output? then st.outputs else st.inputs)
  {
    match d
    case Directory =>
    case Reported(finding) => ErrorsAppend(st.findings, finding);
    case OverBudget(code, slot) =>
      ErrorsAppend(st.findings, Error(code, m.name));
      RecordErrors(Report(st.(fileCount := st.fileCount + 1), Error(code, m.name)), slot, Entry(m.name, ToInt64(m.declared), []));
    case Unusable(code) => ErrorsAppend(st.findings, Error(code, m.name));
    case Usable(slot, kept, size) =>
      RecordErrors(st.(fileCount := st.fileCount + 1, declaredTotal := WrapAdd(st.declaredTotal, m.declared), actualTotal := WrapAdd(st.actualTotal, size)),
                   slot, Entry(m.name, ToInt64(size), kept));
  }

  // ----- the loop is clean exactly within budget and with no slot twice -----

  lemma WithinBudgetGrows(lower: string -> string, ms: seq<Member>, m: Member, o: Options)
    ensures WithinBudget(lower, ms + [m], o) <==>
              && WithinBudget(lower, ms, o)
              && (m.dir || |Filter(IsFile(), ms)| + 1 <= o.maxFiles)
              && (TakesPart()(m) ==>
                    && MemberOk(lower, m, o)
                    && Sum(Declared(), Filter(TakesPart(), ms)) + m.declared <= o.maxTotalBytes
                    && Sum(Actual(), Filter(TakesPart(), ms)) + |m.content| <= o.maxTotalBytes)
  {
    FilterOneMore(IsFile(), ms, m);
    if TakesPart()(m) {
      BusyMember(lower, ms, m);
    } else {
      IdleMember(lower, ms, m, Slot(Input, ""));
    }
  }

  lemma OneEachGrows(lower: string -> string, ms: seq<Member>, m: Member)
    ensures OneEach(lower, ms + [m]) <==>
              OneEach(lower, ms) && (TakesPart()(m) && SlotOf(lower, m).Some? ==> Holders(lower, ms, SlotOf(lower, m).value) == [])
  {
    if TakesPart()(m) {
      BusyMember(lower, ms, m);
      if OneEach(lower, ms + [m]) {
        forall slot ensures |Holders(lower, ms, slot)| <= 1 {
          assert |Holders(lower, ms + [m], slot)| <= 1;
        }
        if SlotOf(lower, m).Some? {
          assert |Holders(lower, ms + [m], SlotOf(lower, m).value)| <= 1;
        }
      }
    } else {
      forall slot ensures Holders(lower, ms + [m], slot) == Holders(lower, ms, slot) {
        IdleMember(lower, ms, m, slot);
      }
      if OneEach(lower, ms + [m]) {
        forall slot ensures |Holders(lower, ms, slot)| <= 1 {
          assert |Holders(lower, ms + [m], slot)| <= 1;
        }
      }
    }
  }

  lemma StepCounts(lower: string -> string, st: ParseState, m: Member, o: Options)
    ensures Step(lower, st, m, o).fileCount == st.fileCount + if m.dir then 0 else 1
  {
  }

  lemma FilesOneMore(lower: string -> string, before: ParseState, after: ParseState, ms: seq<Member>, m: Member, more: seq<Member>, o: Options)
    requires after == Step(lower, before, m, o) && before.fileCount == |Filter(IsFile(), ms)| && more == ms + [m]
    ensures after.fileCount == |Filter(IsFile(), more)|
  {
    StepCounts(lower, before, m, o);
    FilterOneMore(IsFile(), ms, m);
  }

  lemma {:induction false} FilesCounted(lower: string -> string, ms: seq<Member>, o: Options)
    ensures Fold(lower, ms, o).fileCount == |Filter(IsFile(), ms)|
  {
    if ms != [] {
      var last := |ms| - 1;
      FilesCounted(lower, ms[..last], o);
      assert ms == ms[..last] + [ms[last]];
      FilesOneMore(lower, Fold(lower, ms[..last], o), Fold(lower, ms, o), ms[..last], ms[last], ms, o);
    }
  }

  lemma MapSame(lower: string -> string, entries: map<string, Entry>, kind: Kind, ms: seq<Member>, m: Member, keep: bool)
    requires MapOk(lower, entries, kind, ms, keep)
    requires TakesPart()(m) ==> SlotOf(lower, m).Some? && SlotOf(lower, m).value.kind != kind
    ensures MapOk(lower, entries, kind, ms + [m], keep)
  {
    forall key ensures Holders(lower, ms + [m], Slot(kind, key)) == Holders(lower, ms, Slot(kind, key)) {
      FilterOneMore(HasSlot(lower, Slot(kind, key)), ms, m);
    }
  }

  lemma HoldersGrow(lower: string -> string, slot: Slot, other: Slot, ms: seq<Member>, m: Member)
    requires TakesPart()(m) && SlotOf(lower, m) == Some(slot)
    ensures Holders(lower, ms + [m], other) == Holders(lower, ms, other) + if other == slot then [m] else []
  {
    FilterOneMore(HasSlot(lower, other), ms, m);
  }

  lemma MapGrows(lower: string -> string, entries: map<string, Entry>, slot: Slot, ms: seq<Member>, m: Member, keep: bool)
    requires MapOk(lower, entries, slot.kind, ms, keep)
    requires TakesPart()(m) && SlotOf(lower, m) == Some(slot) && slot.key !in entries
    ensures MapOk(lower, entries[slot.key := EntryOf(m, keep)], slot.kind, ms + [m], keep)
  {
    var more := entries[slot.key := EntryOf(m, keep)];
    forall key
      ensures key in more <==> Holders(lower, ms + [m], Slot(slot.kind, key)) != []
      ensures key in more ==> more[key] == EntryOf(Holders(lower, ms + [m], Slot(slot.kind, key))[0], keep)
    {
      HoldersGrow(lower, slot, Slot(slot.kind, key), ms, m);
    }
  }

  lemma SoundIdle(lower: string -> string, st: ParseState, ms: seq<Member>, m: Member, o: Options)
    requires Sound(lower, st, ms, o) && !TakesPart()(m)
    ensures Sound(lower, st, ms + [m], o)
  {
    IdleMember(lower, ms, m, Slot(Input, ""));
    MapSame(lower, st.inputs, Input, ms, m, o.keepContents);
    MapSame(lower, st.outputs, Output, ms, m, o.keepContents);
  }

  function Added(st: ParseState, slot: Slot, m: Member, keep: bool): ParseState {
    if slot.kind.Output? then st.(outputs := st.outputs[slot.key := EntryOf(m, keep)])
    else st.(inputs := st.inputs[slot.key := EntryOf(m, keep)])
  }

  lemma MapsBusy(lower: string -> string, st: ParseState, ms: seq<Member>, m: Member, slot: Slot, keep: bool)
    requires MapOk(lower, st.inputs, Input, ms, keep) && MapOk(lower, st.outputs, Output, ms, keep)
    requires TakesPart()(m) && SlotOf(lower, m) == Some(slot)
    requires slot.key !in if slot.kind.Output? then st.outputs else st.inputs
    ensures var t := Added(st, slot, m, keep);
            MapOk(lower, t.inputs, Input, ms + [m], keep) && MapOk(lower, t.outputs, Output, ms + [m], keep)
  {
    if slot.kind.Output? {
      MapGrows(lower, st.outputs, slot, ms, m, keep);
      MapSame(lower, st.inputs, Input, ms, m, keep);
    } else {
      MapGrows(lower, st.inputs, slot, ms, m, keep);
      MapSame(lower, st.outputs, Output, ms, m, keep);
    }
  }

  lemma OneMoreKey(entries: map<string, Entry>, key: string, entry: Entry)
    requires key !in entries
    ensures |entries[key := entry]| == |entries| + 1
  {
    var more := entries[key := entry];
    assert more.Keys == entries.Keys + {key};
    assert |more.Keys| == |more| && |entries.Keys| == |entries|;
  }

  lemma AddedCounts(st: ParseState, m: Member, slot: Slot, keep: bool)
    requires slot.key !in if slot.kind.Output? then st.outputs else st.inputs
    ensures var t := Added(st, slot, m, keep); |t.inputs| + |t.outputs| == |st.inputs| + |st.outputs| + 1
  {
    OneMoreKey(if slot.kind.Output? then st.outputs else st.inputs, slot.key, EntryOf(m, keep));
  }

  lemma SoundBusy(lower: string -> string, st: ParseState, ms: seq<Member>, m: Member, slot: Slot, o: Options)
    requires Sound(lower, st, ms, o) && TakesPart()(m) && SlotOf(lower, m) == Some(slot)
    requires st.declaredTotal + m.declared <= o.maxTotalBytes && st.actualTotal + |m.content| <= o.maxTotalBytes
    requires slot.key !in if slot.kind.Output? then st.outputs else st.inputs
    ensures var t := Added(st, slot, m, o.keepContents).(declaredTotal := st.declaredTotal + m.declared, actualTotal := st.actualTotal + |m.content|);
            Sound(lower, t, ms + [m], o)
  {
    MapsBusy(lower, st, ms, m, slot, o.keepContents);
    AddedCounts(st, m, slot, o.keepContents);
    BusyMember(lower, ms, m);
  }

  /** The state after a usable first member of its slot. */
  lemma UsableStep(st: ParseState, m: Member, slot: Slot, o: Options)
    requires st.declaredTotal + m.declared <= o.maxTotalBytes && st.actualTotal + |m.content| <= o.maxTotalBytes
    requires slot.key !in if slot.kind.Output? then st.outputs else st.inputs
    ensures Apply(st, m, Usable(slot, if o.keepContents then m.content else [], |m.content|))
            == Added(st, slot, m, o.keepContents).(declaredTotal := st.declaredTotal + m.declared,
                                                   actualTotal := st.actualTotal + |m.content|,
                                                   fileCount := st.fileCount + 1)
  {
  }

  lemma SlotFree(lower: string -> string, st: ParseState, ms: seq<Member>, slot: Slot, o: Options)
    requires Sound(lower, st, ms, o)
    ensures slot.key in (if slot.kind.Output? then st.outputs else st.inputs) <==> Holders(lower, ms, slot) != []
  {
    assert slot == Slot(slot.kind, slot.key);
  }

  ghost predicate TotalsFit(st: ParseState, o: Options) {
    st.declaredTotal <= o.maxTotalBytes && st.actualTotal <= o.maxTotalBytes
  }

  lemma NamedTotals(st: ParseState, m: Member, o: Options, slot: Slot)
    requires TotalsFit(st, o)
    ensures TotalsFit(Apply(st, m, DisposeNamed(st, m, o, slot)), o)
  {
    TotalIsExact(m.declared, st.declaredTotal, o.maxTotalBytes);
    TotalIsExact(|m.content|, st.actualTotal, o.maxTotalBytes);
  }

  lemma StepTotals(lower: string -> string, st: ParseState, m: Member, o: Options)
    requires TotalsFit(st, o)
    ensures TotalsFit(Step(lower, st, m, o), o)
  {
    if SlotOf(lower, m).Some? {
      NamedTotals(st, m, o, SlotOf(lower, m).value);
    }
  }

  /** The running totals never pass the budget, whatever has been reported. */
  lemma {:induction false} TotalsStayWithin(lower: string -> string, ms: seq<Member>, o: Options)
    ensures TotalsFit(Fold(lower, ms, o), o)
  {
    if ms != [] {
      TotalsStayWithin(lower, ms[..|ms| - 1], o);
      StepTotals(lower, Fold(lower, ms[..|ms| - 1], o), ms[|ms| - 1], o);
    }
  }

  /** Every finding of the loop names a defect of its member. */
  lemma LoopFindingsAreTrue(lower: string -> string, ms: seq<Member>, m: Member, o: Options)
    requires o.maxRatio > 0
    ensures var st := Fold(lower, ms, o);
            CodeOf(Dispose(lower, st, m, o)).Some? ==> !m.dir && Blames(lower, st, m, o, CodeOf(Dispose(lower, st, m, o)).value)
  {
    TotalsStayWithin(lower, ms, o);
    FindingsAreTrue(lower, Fold(lower, ms, o), m, o);
  }

  /** Whether `m` may follow the members `ms`. */
  ghost predicate MayFollow(lower: string -> string, ms: seq<Member>, m: Member, o: Options) {
    && |Filter(IsFile(), ms)| + 1 <= o.maxFiles
    && MemberOk(lower, m, o)
    && Sum(Declared(), Filter(TakesPart(), ms)) + m.declared <= o.maxTotalBytes
    && Sum(Actual(), Filter(TakesPart(), ms)) + |m.content| <= o.maxTotalBytes
    && Holders(lower, ms, SlotOf(lower, m).value) == []
  }

  lemma BusyClean(lower: string -> string, st: ParseState, ms: seq<Member>, m: Member, o: Options)
    requires o.maxRatio > 0 && !HasErrors(st.findings) && TakesPart()(m)
    requires Sound(lower, st, ms, o) && st.fileCount == |Filter(IsFile(), ms)|
    ensures !HasErrors(Step(lower, st, m, o).findings) <==> MayFollow(lower, ms, m, o)
  {
    ApplyClean(st, m, Dispose(lower, st, m, o));
    if st.fileCount + 1 <= o.maxFiles {
      UsableMeans(lower, st, m, o);
      if Dispose(lower, st, m, o).Usable? {
        SlotFree(lower, st, ms, SlotOf(lower, m).value, o);
      }
    }
  }

  lemma BusySound(lower: string -> string, st: ParseState, ms: seq<Member>, m: Member, o: Options)
    requires o.maxRatio > 0 && TakesPart()(m)
    requires Sound(lower, st, ms, o) && st.fileCount == |Filter(IsFile(), ms)|
    requires MayFollow(lower, ms, m, o)
    ensures Sound(lower, Step(lower, st, m, o), ms + [m], o)
  {
    var slot := SlotOf(lower, m).value;
    UsableMeans(lower, st, m, o);
    SlotFree(lower, st, ms, slot, o);
    UsableStep(st, m, slot, o);
    SoundBusy(lower, st, ms, m, slot, o);
  }

  lemma IdleClean(lower: string -> string, st: ParseState, ms: seq<Member>, m: Member, o: Options)
    requires !HasErrors(st.findings) && !TakesPart()(m)
    requires Sound(lower, st, ms, o) && st.fileCount == |Filter(IsFile(), ms)|
    ensures !HasErrors(Step(lower, st, m, o).findings) <==> m.dir || |Filter(IsFile(), ms)| + 1 <= o.maxFiles
    ensures Sound(lower, Step(lower, st, m, o), ms + [m], o)
  {
    ApplyClean(st, m, Dispose(lower, st, m, o));
    SoundIdle(lower, st, ms, m, o);
  }

  /** One member more, after a clean and sound start. */
  lemma CleanStep(lower: string -> string, st: ParseState, ms: seq<Member>, m: Member, o: Options)
    requires o.maxRatio > 0 && !HasErrors(st.findings)
    requires Sound(lower, st, ms, o) && st.fileCount == |Filter(IsFile(), ms)|
    requires WithinBudget(lower, ms, o) && OneEach(lower, ms)
    ensures !HasErrors(Step(lower, st, m, o).findings) <==> WithinBudget(lower, ms + [m], o) && OneEach(lower, ms + [m])
    ensures !HasErrors(Step(lower, st, m, o).findings) ==> Sound(lower, Step(lower, st, m, o), ms + [m], o)
  {
    WithinBudgetGrows(lower, ms, m, o);
    OneEachGrows(lower, ms, m);
    if TakesPart()(m) {
      BusyClean(lower, st, ms, m, o);
      if MayFollow(lower, ms, m, o) {
        BusySound(lower, st, ms, m, o);
      }
    } else {
      IdleClean(lower, st, ms, m, o);
    }
  }

  lemma {:induction false} CleanIff(lower: string -> string, ms: seq<Member>, o: Options)
    requires o.maxRatio > 0
    ensures !HasErrors(Fold(lower, ms, o).findings) <==> WithinBudget(lower, ms, o) && OneEach(lower, ms)
    ensures !HasErrors(Fold(lower, ms, o).findings) ==> Sound(lower, Fold(lower, ms, o), ms, o)
  {
    if ms != [] {
      var front, m := ms[..|ms| - 1], ms[|ms| - 1];
      CleanIff(lower, front, o);
      assert ms == front + [m];
      var st := Fold(lower, front, o);
      if HasErrors(st.findings) {
        ApplyClean(st, m, Dispose(lower, st, m, o));
        WithinBudgetGrows(lower, front, m, o);
        OneEachGrows(lower, front, m);
      } else {
        FilesCounted(lower, front, o);
        CleanStep(lower, st, front, m, o);
      }
    }
  }

  // ----- pairing -----

  lemma ErrorsConcat(a: seq<Finding>, b: seq<Finding>)
    ensures HasErrors(a + b) <==> HasErrors(a) || HasErrors(b)
  {
    if HasErrors(a) {
      var i :| 0 <= i < |a| && a[i].error;
      assert (a + b)[i].error;
    }
    if HasErrors(b) {
      var i :| 0 <= i < |b| && b[i].error;
      assert (a + b)[|a| + i].error;
    }
  }

  lemma {:induction false} UnmatchedErrors(keys: seq<string>, entries: map<string, Entry>, others: map<string, Entry>, code: Code)
    requires forall k | 0 <= k < |keys| :: keys[k] in entries
    ensures HasErrors(Unmatched(keys, entries, others, code)) <==> exists k :: 0 <= k < |keys| && keys[k] !in others
  {
    if keys != [] {
      var front, key := keys[..|keys| - 1], keys[|keys| - 1];
      UnmatchedErrors(front, entries, others, code);
      var more := if key in others then [] else [Error(code, entries[key].name)];
      ErrorsConcat(Unmatched(front, entries, others, code), more);
      assert key !in others ==> more[0].error;
      if HasErrors(Unmatched(front, entries, others, code)) {
        var k :| 0 <= k < |front| && front[k] !in others;
        assert keys[k] !in others;
      }
      if k :| 0 <= k < |keys| && keys[k] !in others {
        assert k < |front| ==> front[k] !in others;
      }
    }
  }

  lemma OrderLists(w: World, s: set<string>)
    requires Proper(w)
    ensures forall key :: key in w.order(s) <==> key in s
    ensures |w.order(s)| == |s|
  {
    assert multiset(w.order(s)) == multiset(s);
    assert |multiset(w.order(s))| == |multiset(s)|;
    forall key ensures key in w.order(s) <==> key in s {
      assert key in w.order(s) <==> key in multiset(w.order(s));
      assert key in s <==> key in multiset(s);
    }
  }

  lemma UnmatchedIff(w: World, entries: map<string, Entry>, others: map<string, Entry>, code: Code)
    requires Proper(w)
    ensures HasErrors(Unmatched(w.order(entries.Keys), entries, others, code)) <==> !(entries.Keys <= others.Keys)
  {
    OrderLists(w, entries.Keys);
    var keys := w.order(entries.Keys);
    forall k | 0 <= k < |keys| ensures keys[k] in entries {
      assert keys[k] in keys;
    }
    UnmatchedErrors(keys, entries, others, code);
    if !(entries.Keys <= others.Keys) {
      var key :| key in entries.Keys && key !in others.Keys;
      assert key in keys;
      var k :| 0 <= k < |keys| && keys[k] == key;
    }
  }

  lemma PairKeysAre(w: World, inputs: map<string, Entry>, outputs: map<string, Entry>)
    requires Proper(w)
    ensures forall key :: key in PairKeys(w, inputs, outputs) <==> key in inputs && key in outputs
  {
    OrderLists(w, inputs.Keys);
    var both := Filter(InBoth(inputs, outputs), w.order(inputs.Keys));
    SameMembers(both, Sort(NaturalAtMost(w.lower), both));
  }

  lemma FinishClean(w: World, st: ParseState, o: Options)
    requires Proper(w)
    ensures !HasErrors(Finish(w, st, o).findings) <==>
              !HasErrors(st.findings) && st.inputs.Keys == st.outputs.Keys && st.inputs.Keys != {}
  {
    var lost := Unmatched(w.order(st.inputs.Keys), st.inputs, st.outputs, OutputMissing);
    var stray := Unmatched(w.order(st.outputs.Keys), st.outputs, st.inputs, InputMissing);
    UnmatchedIff(w, st.inputs, st.outputs, OutputMissing);
    UnmatchedIff(w, st.outputs, st.inputs, InputMissing);
    ErrorsConcat(st.findings, lost);
    ErrorsConcat(st.findings + lost, stray);
    ErrorsAppend(st.findings + lost + stray, Error(ArchiveEmpty, ""));
    PairKeysAre(w, st.inputs, st.outputs);
    var keys := PairKeys(w, st.inputs, st.outputs);
    if keys != [] {
      assert keys[0] in keys && keys[0] in st.inputs.Keys;
    }
    if key :| key in st.inputs.Keys && key in st.outputs.Keys {
      assert key in keys;
    }
  }

  lemma HeldMeansKey(lower: string -> string, entries: map<string, Entry>, kind: Kind, ms: seq<Member>, keep: bool, key: string)
    requires MapOk(lower, entries, kind, ms, keep) && OneEach(lower, ms)
    ensures |Holders(lower, ms, Slot(kind, key))| == if key in entries.Keys then 1 else 0
  {
    assert |Holders(lower, ms, Slot(kind, key))| <= 1;
  }

  lemma PairedMeansSameKeys(lower: string -> string, st: ParseState, ms: seq<Member>, o: Options)
    requires Sound(lower, st, ms, o) && OneEach(lower, ms)
    ensures Paired(lower, ms) <==> st.inputs.Keys == st.outputs.Keys
  {
    forall key
      ensures |Holders(lower, ms, Slot(Input, key))| == |Holders(lower, ms, Slot(Output, key))| <==> (key in st.inputs.Keys <==> key in st.outputs.Keys)
    {
      HeldMeansKey(lower, st.inputs, Input, ms, o.keepContents, key);
      HeldMeansKey(lower, st.outputs, Output, ms, o.keepContents, key);
    }
    if Paired(lower, ms) {
      forall key ensures key in st.inputs.Keys <==> key in st.outputs.Keys {
        assert |Holders(lower, ms, Slot(Input, key))| == |Holders(lower, ms, Slot(Output, key))|;
      }
    }
  }

  lemma FoldAcceptable(w: World, ms: seq<Member>, o: Options)
    requires Proper(w) && o.maxRatio > 0
    ensures !HasErrors(Finish(w, Fold(w.lower, ms, o), o).findings) <==> Acceptable(w.lower, ms, o)
  {
    var st := Fold(w.lower, ms, o);
    CleanIff(w.lower, ms, o);
    FinishClean(w, st, o);
    if !HasErrors(st.findings) {
      PairedMeansSameKeys(w.lower, st, ms, o);
      if st.inputs.Keys == {} && st.outputs.Keys == {} {
        assert |st.inputs| == |st.inputs.Keys| == 0 && |st.outputs| == |st.outputs.Keys| == 0;
      } else {
        assert |st.inputs| == |st.inputs.Keys| && |st.outputs| == |st.outputs.Keys|;
      }
    }
  }

  /** An archive passes without an error exactly when its members can be paired within budget. */
  lemma AcceptedIff(w: World, z: ZipFile, options: Options)
    requires Proper(w)
    ensures var o := WithDefaults(options);
            !HasErrors(Parse(w, z, options).findings) <==> Rejection(z, o).None? && Acceptable(w.lower, z.members.value, o)
  {
    var o := WithDefaults(options);
    if Rejection(z, o).None? {
      FoldAcceptable(w, z.members.value, o);
    } else {
      assert Parse(w, z, options).findings[0].error;
    }
  }
}
