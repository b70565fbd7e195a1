/**
 * What the parser decides by names and sizes, on characters and numbers: a member's slot, whether it is
 * ignored, and what refuses a whole archive.
 */
module ArchiveNames {
  import opened Wrappers
  import opened Sorting
  import opened Text
  import opened Archive

  predicate Separator(c: char)
    ensures Separator(c) <==> c == '/' || c == '\\'
  {
    c == '/' || c == '\\'
  }

  /** Nothing, or a path up to a separator. */
  predicate IsPath(dir: string) {
    dir == [] || Separator(dir[|dir| - 1])
  }

  predicate NoSeparator(s: string) {
    forall i | 0 <= i < |s| :: !Separator(s[i])
  }

  lemma NormalizeAt(name: string, i: nat)
    requires i < |name|
    ensures |Normalize(name)| == |name|
    ensures Normalize(name)[i] == if name[i] == '\\' then '/' else name[i]
  {
  }

  lemma BaseOf(name: string, dir: string, base: string)
    requires name == dir + base && IsPath(dir) && NoSeparator(base)
    ensures var n := Normalize(name); n[LastIndex(n, '/') + 1..] == base
  {
    var n := Normalize(name);
    assert |n| == |name|;
    forall i | 0 <= i < |name| ensures n[i] == if name[i] == '\\' then '/' else name[i] {
      NormalizeAt(name, i);
    }
    forall i | |dir| <= i < |n| ensures n[i] == base[i - |dir|] && n[i] != '/' {
      assert !Separator(base[i - |dir|]);
    }
    if dir != [] {
      assert n[|dir| - 1] == '/';
    }
    assert LastIndex(n, '/') == |dir| - 1;
  }

  lemma LastDot(base: string, stem: string, ext: string)
    requires base == stem + "." + ext && '.' !in ext
    ensures LastIndex(base, '.') == |stem| && base[..|stem|] == stem && base[|stem| + 1..] == ext
  {
    assert base[|stem|] == '.';
    forall i | |stem| < i < |base| ensures base[i] != '.' {
      assert base[i] == ext[i - |stem| - 1];
    }
  }

  lemma ClassifyBase(lower: string -> string, n: string, base: string, stem: string, ext: string)
    requires n[LastIndex(n, '/') + 1..] == base && base == stem + "." + ext && '.' !in ext && stem != [] && ext != []
    ensures Classify(lower, n) == if lower(ext) == "in" then Some(Slot(Input, stem))
                                  else if lower(ext) == "ans" || lower(ext) == "out" then Some(Slot(Output, stem))
                                  else None
  {
    LastDot(base, stem, ext);
  }

  /** The extension decides the kind of slot, and what is before it the key, whatever directory the member is in. */
  lemma SlotByName(lower: string -> string, m: Member, dir: string, stem: string, ext: string)
    requires m.name == dir + (stem + "." + ext) && IsPath(dir)
    requires stem != [] && NoSeparator(stem) && ext != [] && NoSeparator(ext) && '.' !in ext
    ensures SlotOf(lower, m) == if lower(ext) == "in" then Some(Slot(Input, stem))
                                else if lower(ext) == "ans" || lower(ext) == "out" then Some(Slot(Output, stem))
                                else None
  {
    BaseOf(m.name, dir, stem + "." + ext);
    ClassifyBase(lower, Normalize(m.name), stem + "." + ext, stem, ext);
  }

  lemma NoExtension(lower: string -> string, n: string, base: string)
    requires n[LastIndex(n, '/') + 1..] == base
    requires (forall i | 0 < i < |base| :: base[i] != '.') || base[|base| - 1] == '.'
    ensures Classify(lower, n) == None
  {
    var dot := LastIndex(base, '.');
    assert dot <= 0 || dot == |base| - 1;
  }

  /** A name without a dot after its first character, or that ends in one, has no slot. */
  lemma NoSlotByName(lower: string -> string, m: Member, dir: string, base: string)
    requires m.name == dir + base && IsPath(dir) && NoSeparator(base)
    requires (forall i | 0 < i < |base| :: base[i] != '.') || base[|base| - 1] == '.'
    ensures SlotOf(lower, m) == None
  {
    BaseOf(m.name, dir, base);
    NoExtension(lower, Normalize(m.name), base);
  }

  /** Every name is a directory and a base name. */
  lemma EveryName(name: string) returns (dir: string, base: string)
    ensures name == dir + base && IsPath(dir) && NoSeparator(base)
  {
    var n := Normalize(name);
    assert |n| == |name|;
    var slash := LastIndex(n, '/');
    dir, base := name[..slash + 1], name[slash + 1..];
    if slash >= 0 {
      NormalizeAt(name, slash);
    }
    forall i | 0 <= i < |base| ensures !Separator(base[i]) {
      NormalizeAt(name, slash + 1 + i);
    }
  }

  /** And every base name has no slot or a stem and an extension, so that these lemmas decide the slot of any member. */
  lemma EveryBase(base: string) returns (stem: string, ext: string)
    requires NoSeparator(base) && (exists i :: 0 < i < |base| && base[i] == '.') && base[|base| - 1] != '.'
    ensures base == stem + "." + ext
    ensures stem != [] && NoSeparator(stem) && ext != [] && NoSeparator(ext) && '.' !in ext
  {
    var dot := LastIndex(base, '.');
    stem, ext := base[..dot], base[dot + 1..];
    assert forall i | 0 <= i < |ext| :: ext[i] == base[dot + 1 + i];
  }

  /** A path segment: nonempty, between separators or the ends of the name. */
  predicate Segment(name: string, from: nat, to: nat) {
    && from < to <= |name| && NoSeparator(name[from..to])
    && (from > 0 ==> Separator(name[from - 1])) && (to < |name| ==> Separator(name[to]))
  }

  lemma SegmentIsStretch(name: string, from: nat, to: nat)
    requires from < to <= |name|
    ensures Segment(name, from, to) <==> Stretch(Normalize(name), '/', from, to)
    ensures Segment(name, from, to) ==> Normalize(name)[from..to] == name[from..to]
  {
    var n := Normalize(name);
    assert |n| == |name|;
    forall i | 0 <= i < |name| ensures n[i] == (if name[i] == '\\' then '/' else name[i]) && (n[i] == '/' <==> Separator(name[i])) {
      NormalizeAt(name, i);
    }
    if NoSeparator(name[from..to]) {
      forall i | from <= i < to ensures n[i] == name[i] && n[i] != '/' {
        assert name[from..to][i - from] == name[i];
      }
    } else {
      var i :| 0 <= i < to - from && Separator(name[from..to][i]);
      assert n[from..to][i] == '/';
    }
  }

  /** A member is ignored exactly if a segment of its path starts with a dot or is the one Finder adds. */
  lemma IgnoredByName(name: string)
    ensures Ignored(Normalize(name)) <==>
            exists from: nat, to: nat :: Segment(name, from, to) && (name[from] == '.' || name[from..to] == "__MACOSX")
  {
    var n := Normalize(name);
    if Ignored(n) {
      var k :| 0 <= k < |Split(n, '/')| && IgnoredSegment(Split(n, '/')[k]);
      var from, to := PartIsStretch(n, '/', k);
      assert |n| == |name|;
      SegmentIsStretch(name, from, to);
      assert name[from..to][0] == name[from];
    }
    if from: nat, to: nat :| Segment(name, from, to) && (name[from] == '.' || name[from..to] == "__MACOSX") {
      SegmentIsStretch(name, from, to);
      var k := StretchIsPart(n, '/', from, to);
      assert name[from..to][0] == name[from];
      assert IgnoredSegment(Split(n, '/')[k]);
    }
  }

  // ----- limits and checksums -----

  /** An option left at zero, or for the archive size at zero or less, means the documented limit. */
  lemma DefaultLimits(o: Options)
    ensures var d := WithDefaults(o);
      && d.maxBytes == (if o.maxBytes > 0 then o.maxBytes else 134_217_728)
      && d.maxEntryBytes == (if o.maxEntryBytes > 0 then o.maxEntryBytes else 16_777_216)
      && d.maxTotalBytes == (if o.maxTotalBytes > 0 then o.maxTotalBytes else 134_217_728)
      && d.maxFiles == (if o.maxFiles != 0 then o.maxFiles else 2_048)
      && d.maxRatio == (if o.maxRatio > 0 then o.maxRatio else 200)
      && d.expected == o.expected && d.keepContents == o.keepContents && d.timeLimit == o.timeLimit && d.memoryKB == o.memoryKB
  {
  }

  /** An empty archive, or one over the limit, is refused before anything else is looked at. */
  lemma SizeRefuses(w: World, z: ZipFile, options: Options)
    requires options.maxBytes == 0
    ensures z.size <= 0 ==> Parse(w, z, options) == ParseResult([Finding(true, ZipInvalid, "")], [], [])
    ensures z.size > 134_217_728 ==> Parse(w, z, options) == ParseResult([Finding(true, ArchiveTooLarge, "")], [], [])
    ensures 0 < z.size <= 134_217_728 && options.expected == "" && z.members.Some? ==> Rejection(z, WithDefaults(options)).None?
  {
  }

  /** Two strings fold together if they agree up to the case of ASCII letters. */
  lemma FoldMeaning(a: string, b: string)
    ensures EqualFold(a, b) <==>
              && |a| == |b|
              && forall i | 0 <= i < |a| ::
                   || a[i] == b[i]
                   || ('A' <= a[i] <= 'Z' && b[i] as int == a[i] as int + 32)
                   || ('A' <= b[i] <= 'Z' && a[i] as int == b[i] as int + 32)
  {
    if EqualFold(a, b) {
      forall i | 0 <= i < |a|
        ensures a[i] == b[i] || ('A' <= a[i] <= 'Z' && b[i] as int == a[i] as int + 32) || ('A' <= b[i] <= 'Z' && a[i] as int == b[i] as int + 32)
      {
        assert AsciiLower(a[i]) == AsciiLower(b[i]);
      }
    }
  }
}
