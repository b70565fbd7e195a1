/** The smallest archive that is accepted, from the names and sizes of its two members. */
module ArchivePairs {
  import opened Wrappers
  import opened Sorting
  import opened Sums
  import opened Archive
  import opened ArchiveMeaning
  import opened ArchiveResults
  import opened ArchiveNames

  /** A readable file that is not ignored, within the limits for one entry. */
  predicate Readable(m: Member, o: Options) {
    && !m.dir && !Ignored(Normalize(m.name)) && m.intact
    && m.declared <= o.maxEntryBytes && m.declared <= m.compressed * o.maxRatio
    && 0 < |m.content| <= o.maxEntryBytes
  }

  lemma FilterTwo<T(!new)>(keep: T -> bool, a: T, b: T)
    ensures Filter(keep, [a, b]) == (if keep(a) then [a] else []) + (if keep(b) then [b] else [])
  {
    assert [a, b] == [a] + [b];
    FilterOneMore(keep, [a], b);
    FilterOneMore(keep, [], a);
    assert [] + [a] == [a];
  }

  lemma SumTwo<T>(f: T -> nat, a: T, b: T)
    ensures Sum(f, [a, b]) == f(a) + f(b)
  {
    assert [a, b] == [a] + [b];
    SumAppend(f, [a], b);
    SumAppend(f, [], a);
    assert [] + [a] == [a];
  }

  lemma HoldersOfPair(lower: string -> string, a: Member, b: Member, o: Options, stem: string, slot: Slot)
    requires Readable(a, o) && Readable(b, o)
    requires SlotOf(lower, a) == Some(Slot(Input, stem)) && SlotOf(lower, b) == Some(Slot(Output, stem))
    ensures Holders(lower, [a, b], slot) == if slot == Slot(Input, stem) then [a] else if slot == Slot(Output, stem) then [b] else []
  {
    FilterTwo(HasSlot(lower, slot), a, b);
    assert [a] + [] == [a] && [] + [b] == [b];
  }

  lemma PairAcceptable(lower: string -> string, a: Member, b: Member, o: Options, stem: string)
    requires Readable(a, o) && Readable(b, o) && o.maxFiles >= 2
    requires SlotOf(lower, a) == Some(Slot(Input, stem)) && SlotOf(lower, b) == Some(Slot(Output, stem))
    requires a.declared + b.declared <= o.maxTotalBytes && |a.content| + |b.content| <= o.maxTotalBytes
    ensures Acceptable(lower, [a, b], o) && Filter(TakesPart(), [a, b]) == [a, b]
  {
    var both := [a, b];
    assert [a] + [b] == both;
    FilterTwo(IsFile(), a, b);
    FilterTwo(TakesPart(), a, b);
    SumTwo(Declared(), a, b);
    SumTwo(Actual(), a, b);
    forall slot ensures |Holders(lower, both, slot)| <= 1 {
      HoldersOfPair(lower, a, b, o, stem, slot);
    }
    forall key ensures |Holders(lower, both, Slot(Input, key))| == |Holders(lower, both, Slot(Output, key))| {
      HoldersOfPair(lower, a, b, o, stem, Slot(Input, key));
      HoldersOfPair(lower, a, b, o, stem, Slot(Output, key));
    }
  }

  /**
   * `<stem>.in` with `<stem>.out` or `<stem>.ans`, in any directories and any case of the extensions, within
   * the budgets, makes an archive of one case.
   */
  lemma PairAccepted(w: World, z: ZipFile, options: Options, a: Member, b: Member, dirA: string, dirB: string, stem: string,
                     extA: string, extB: string)
    requires Proper(w) && z.members == Some([a, b]) && Rejection(z, WithDefaults(options)).None?
    requires a.name == dirA + (stem + "." + extA) && b.name == dirB + (stem + "." + extB) && IsPath(dirA) && IsPath(dirB)
    requires stem != [] && NoSeparator(stem)
    requires extA != [] && NoSeparator(extA) && '.' !in extA && w.lower(extA) == "in"
    requires extB != [] && NoSeparator(extB) && '.' !in extB && (w.lower(extB) == "out" || w.lower(extB) == "ans")
    requires var o := WithDefaults(options);
      && Readable(a, o) && Readable(b, o) && o.maxFiles >= 2
      && a.declared + b.declared <= o.maxTotalBytes && |a.content| + |b.content| <= o.maxTotalBytes
    ensures var r := Parse(w, z, options);
      && !HasErrors(r.findings)
      && r.cases == [ArchiveCase(stem, a.name, b.name, ToInt64(|a.content|), ToInt64(|b.content|))]
  {
    var o, r := WithDefaults(options), Parse(w, z, options);
    SlotByName(w.lower, a, dirA, stem, extA);
    SlotByName(w.lower, b, dirB, stem, extB);
    PairAcceptable(w.lower, a, b, o, stem);
    AcceptedIff(w, z, options);
    PerfectPairing(w, z, options);
    assert |Filter(TakesPart(), [a, b])| == 2;
    var k := MemberHasCase(w, z, options, a);
    CasesFit(w, z, options, 0);
    HoldersOfPair(w.lower, a, b, o, stem, Slot(Input, stem));
    HoldersOfPair(w.lower, a, b, o, stem, Slot(Output, stem));
  }
}
