/**
 * group_specifications_and_sections (vrplib/parse/parse_vrplib.py): the split of cleaned
 * instance lines into one-line `KEY: VALUE` specifications and multi-line `NAME_SECTION`
 * blocks (the specification part and data part of TSPLIB 95, sections 1.1 and 1.2).
 */
module VrplibGroup {
  import opened Wrappers
  import opened Text
  import opened Lists

  const SpecAfterSection := "Specification presented after section."
  const NotVrplib := "Instance does not conform to the VRPLIB format."

  predicate HasColon(l: string) {
    ':' in l
  }

  predicate HasSection(l: string) {
    Contains(l, "_SECTION")
  }

  predicate HasEof(l: string) {
    Contains(l, "EOF")
  }

  /** A line that can only be a data row: no ':', no "_SECTION" and no "EOF". */
  predicate Plain(l: string) {
    !HasColon(l) && !HasSection(l) && !HasEof(l)
  }

  /** A section header: a "_SECTION" line that is not a specification. */
  predicate IsHeader(l: string) {
    HasSection(l) && !HasColon(l)
  }

  /** The first line at or after i that contains "EOF", or |lines|. */
  function EofFrom(lines: seq<string>, i: nat): (e: nat)
    requires i <= |lines|
    ensures i <= e <= |lines|
    ensures forall k :: i <= k < e ==> !HasEof(lines[k])
    ensures e < |lines| ==> HasEof(lines[e])
    decreases |lines| - i
  {
    if i == |lines| || HasEof(lines[i]) then i else EofFrom(lines, i + 1)
  }

  /** Where grouping stops: the first line containing "EOF", or the end of the lines. */
  function EofIndex(lines: seq<string>): nat {
    EofFrom(lines, 0)
  }

  lemma EofFromIs(lines: seq<string>, i: nat, e: nat)
    requires i <= e <= |lines|
    requires forall k :: i <= k < e ==> !HasEof(lines[k])
    requires e < |lines| ==> HasEof(lines[e])
    ensures EofFrom(lines, i) == e
    decreases e - i
  {
    if i < e {
      EofFromIs(lines, i + 1, e);
    }
  }

  /** The first line at or after i that is not plain, or |lines|: where a section block ends. */
  function NextNonPlain(lines: seq<string>, i: nat): (j: nat)
    requires i <= |lines|
    ensures i <= j <= |lines|
    ensures forall k :: i <= k < j ==> Plain(lines[k])
    ensures j < |lines| ==> !Plain(lines[j])
    decreases |lines| - i
  {
    if i == |lines| || !Plain(lines[i]) then i else NextNonPlain(lines, i + 1)
  }

  lemma NextNonPlainIs(lines: seq<string>, i: nat, j: nat)
    requires i <= j <= |lines|
    requires forall k :: i <= k < j ==> Plain(lines[k])
    requires j < |lines| ==> !Plain(lines[j])
    ensures NextNonPlain(lines, i) == j
    decreases j - i
  {
    if i < j {
      NextNonPlainIs(lines, i + 1, j);
    }
  }

  /** The last line before i that is not plain, if any. */
  function PrevNonPlain(lines: seq<string>, i: nat): (r: Option<nat>)
    requires i <= |lines|
    ensures r.Some? ==> r.value < i && !Plain(lines[r.value])
    ensures r.Some? ==> forall k :: r.value < k < i ==> Plain(lines[k])
    ensures r.None? ==> forall k :: 0 <= k < i ==> Plain(lines[k])
  {
    if i == 0 then None
    else if !Plain(lines[i - 1]) then Some(i - 1)
    else PrevNonPlain(lines, i - 1)
  }

  lemma PrevNonPlainIs(lines: seq<string>, h: nat, i: nat)
    requires h < i <= |lines| && !Plain(lines[h])
    requires forall k :: h < k < i ==> Plain(lines[k])
    ensures PrevNonPlain(lines, i) == Some(h)
    decreases i - h
  {
    if h + 1 < i {
      PrevNonPlainIs(lines, h, i - 1);
    }
  }

  /** A plain line that belongs to the body of the section block above it. */
  predicate InBody(lines: seq<string>, i: nat)
    requires i <= |lines|
  {
    match PrevNonPlain(lines, i)
    case Some(h) => IsHeader(lines[h])
    case None => false
  }

  /**
   * The error grouping raises at line i when it reaches i outside a section body: a header
   * whose block runs into a ':' line, or a line outside any section that is neither a
   * specification nor a header.
   */
  function LineError(lines: seq<string>, i: nat): Option<Error>
    requires i < |lines|
  {
    if HasColon(lines[i]) then None
    else if HasSection(lines[i]) then
      var j := NextNonPlain(lines, i + 1);
      if j < |lines| && HasColon(lines[j]) then Some(ValueError(SpecAfterSection)) else None
    else if InBody(lines, i) then None
    else Some(RuntimeError(NotVrplib))
  }

  /** The first error among lines [0, n). */
  function FirstError(lines: seq<string>, n: nat): Option<Error>
    requires n <= |lines|
  {
    if n == 0 then None
    else if FirstError(lines, n - 1).Some? then FirstError(lines, n - 1)
    else LineError(lines, n - 1)
  }

  /** The specification lines among [0, n): those that contain ':', in order. */
  function SpecLines(lines: seq<string>, n: nat): seq<string>
    requires n <= |lines|
  {
    if n == 0 then [] else SpecLines(lines, n - 1) + (if HasColon(lines[n - 1]) then [lines[n - 1]] else [])
  }

  /** The section blocks of the headers among [0, n): each header with the plain lines after it. */
  function Blocks(lines: seq<string>, n: nat): seq<seq<string>>
    requires n <= |lines|
  {
    if n == 0 then []
    else Blocks(lines, n - 1) + (if IsHeader(lines[n - 1]) then [lines[n - 1..NextNonPlain(lines, n)]] else [])
  }

  /**
   * The grouping: the first error before the "EOF" line, if there is one, else the
   * specification lines and the section blocks before it.
   */
  function GroupSpec(lines: seq<string>): Result<(seq<string>, seq<seq<string>>)> {
    var e := EofIndex(lines);
    match FirstError(lines, e)
    case Some(err) => Err(err)
    case None => Ok((SpecLines(lines, e), Blocks(lines, e)))
  }

  lemma {:induction false} FirstErrorStable(lines: seq<string>, m: nat, n: nat)
    requires m <= n <= |lines|
    requires FirstError(lines, m).Some?
    ensures FirstError(lines, n) == FirstError(lines, m)
    decreases n - m
  {
    if m < n {
      FirstErrorStable(lines, m, n - 1);
    }
  }

  /** The first error at line i, after none before it, is the error of the whole grouping. */
  lemma ErrorAt(lines: seq<string>, i: nat)
    requires i < |lines| && !HasEof(lines[i])
    requires forall k :: 0 <= k < i ==> !HasEof(lines[k])
    requires FirstError(lines, i).None? && LineError(lines, i).Some?
    ensures GroupSpec(lines) == Err(LineError(lines, i).value)
  {
    EofAfter(lines, i);
    assert FirstError(lines, i + 1) == LineError(lines, i);
    FirstErrorStable(lines, i + 1, EofIndex(lines));
  }

  /** Grouping goes past every line before the first "EOF" line. */
  lemma EofAfter(lines: seq<string>, i: nat)
    requires i < |lines| && forall k :: 0 <= k <= i ==> !HasEof(lines[k])
    ensures i < EofIndex(lines)
  {
  }

  /** A line inside the block of the last header is skipped: it is plain, in the body, and adds nothing. */
  lemma SkipStep(lines: seq<string>, header: nat, idx: nat)
    requires header < idx < |lines| && IsHeader(lines[header]) && idx < NextNonPlain(lines, header + 1)
    ensures Plain(lines[idx]) && LineError(lines, idx).None?
    ensures SpecLines(lines, idx + 1) == SpecLines(lines, idx)
    ensures Blocks(lines, idx + 1) == Blocks(lines, idx)
  {
    PrevNonPlainIs(lines, header, idx);
  }

  /** A plain line after the block of the last header (or before any header) is an error. */
  lemma StrayStep(lines: seq<string>, header: int, endSection: nat, idx: nat)
    requires idx < |lines| && header < idx && endSection <= idx
    requires Plain(lines[idx])
    requires forall h :: 0 <= h < idx && header < h ==> !IsHeader(lines[h])
    requires header >= 0 ==> IsHeader(lines[header]) && endSection == NextNonPlain(lines, header + 1)
    ensures LineError(lines, idx) == Some(RuntimeError(NotVrplib))
  {
  }

  /** The block of a header: where it ends, and whether it ends at a ':' line. */
  method ScanBlock(lines: seq<string>, start: nat) returns (endSection: nat, colon: bool)
    requires start < |lines|
    ensures endSection == NextNonPlain(lines, start + 1)
    ensures colon <==> endSection < |lines| && HasColon(lines[endSection])
  {
    endSection := start + 1;
    colon := false;
    var j := start + 1;
    while j < |lines|
      invariant start + 1 <= j <= |lines| && endSection == j
      invariant forall k :: start + 1 <= k < j ==> Plain(lines[k])
    {
      var next := lines[j];
      if ':' in next {
        colon := true;
        break;
      }
      if Contains(next, "_SECTION") || Contains(next, "EOF") {
        break;
      }
      endSection := endSection + 1;
      j := j + 1;
    }
    NextNonPlainIs(lines, start + 1, j);
  }

  /**
   * group_specifications_and_sections with the block start taken as the current line's own
   * position (the source looks the line up with lines.index; see RepeatedHeaderSkipsOrderCheck).
   */
  method GroupSpecificationsAndSections(lines: seq<string>) returns (r: Result<(seq<string>, seq<seq<string>>)>)
    ensures r == GroupSpec(lines)
  {
    var specs: seq<string> := [];
    var sections: seq<seq<string>> := [];
    var endSection: nat := 0;
    ghost var header: int := -1;
    var idx: nat := 0;
    while idx < |lines|
      invariant idx <= |lines|
      invariant forall k :: 0 <= k < idx ==> !HasEof(lines[k])
      invariant FirstError(lines, idx).None?
      invariant specs == SpecLines(lines, idx) && sections == Blocks(lines, idx)
      invariant header < idx
      invariant forall h :: 0 <= h < idx && header < h ==> !IsHeader(lines[h])
      invariant header >= 0 ==> IsHeader(lines[header]) && endSection == NextNonPlain(lines, header + 1)
      invariant header < 0 ==> endSection == 0
    {
      var line := lines[idx];
      if Contains(line, "EOF") {
        EofFromIs(lines, 0, idx);
        return Ok((specs, sections));
      }
      if idx < endSection {
        SkipStep(lines, header, idx);
      } else if ':' in line {
        specs := specs + [line];
      } else if Contains(line, "_SECTION") {
        var colon;
        endSection, colon := ScanBlock(lines, idx);
        if colon {
          ErrorAt(lines, idx);
          return Err(ValueError(SpecAfterSection));
        }
        sections := sections + [lines[idx..endSection]];
        header := idx;
      } else {
        StrayStep(lines, header, endSection, idx);
        ErrorAt(lines, idx);
        return Err(RuntimeError(NotVrplib));
      }
      idx := idx + 1;
    }
    EofFromIs(lines, 0, idx);
    r := Ok((specs, sections));
  }

  /** The lines among [0, n) that are not specifications, in order. */
  function NonSpecLines(lines: seq<string>, n: nat): seq<string>
    requires n <= |lines|
  {
    if n == 0 then [] else NonSpecLines(lines, n - 1) + (if HasColon(lines[n - 1]) then [] else [lines[n - 1]])
  }

  /** The rest of the block that is still open at line n, when n is inside a section body. */
  function OpenBlock(lines: seq<string>, n: nat): seq<string>
    requires n <= |lines|
  {
    if InBody(lines, n) then lines[n..NextNonPlain(lines, n)] else []
  }

  lemma PartitionStep(lines: seq<string>, n: nat)
    requires n < |lines| && !HasEof(lines[n]) && LineError(lines, n).None?
    requires Flatten(Blocks(lines, n)) == NonSpecLines(lines, n) + OpenBlock(lines, n)
    ensures Flatten(Blocks(lines, n + 1)) == NonSpecLines(lines, n + 1) + OpenBlock(lines, n + 1)
  {
    var l := lines[n];
    if HasColon(l) {
      PartitionSpecStep(lines, n);
    } else if HasSection(l) {
      PartitionHeaderStep(lines, n);
    } else {
      PartitionRowStep(lines, n);
    }
  }

  lemma PartitionSpecStep(lines: seq<string>, n: nat)
    requires n < |lines| && HasColon(lines[n])
    ensures OpenBlock(lines, n) == [] && OpenBlock(lines, n + 1) == []
    ensures Blocks(lines, n + 1) == Blocks(lines, n)
    ensures NonSpecLines(lines, n + 1) == NonSpecLines(lines, n)
  {
    assert NextNonPlain(lines, n) == n;
    assert PrevNonPlain(lines, n + 1) == Some(n);
  }

  lemma PartitionHeaderStep(lines: seq<string>, n: nat)
    requires n < |lines| && IsHeader(lines[n])
    requires Flatten(Blocks(lines, n)) == NonSpecLines(lines, n) + OpenBlock(lines, n)
    ensures Flatten(Blocks(lines, n + 1)) == NonSpecLines(lines, n + 1) + OpenBlock(lines, n + 1)
  {
    var l := lines[n];
    var e := NextNonPlain(lines, n + 1);
    assert NextNonPlain(lines, n) == n;
    assert OpenBlock(lines, n) == [];
    assert PrevNonPlain(lines, n + 1) == Some(n);
    assert OpenBlock(lines, n + 1) == lines[n + 1..e];
    assert Blocks(lines, n + 1) == Blocks(lines, n) + [lines[n..e]];
    FlattenAppend(Blocks(lines, n), lines[n..e]);
    assert lines[n..e] == [l] + lines[n + 1..e];
    assert NonSpecLines(lines, n + 1) == NonSpecLines(lines, n) + [l];
  }

  lemma PartitionRowStep(lines: seq<string>, n: nat)
    requires n < |lines| && Plain(lines[n]) && InBody(lines, n)
    requires Flatten(Blocks(lines, n)) == NonSpecLines(lines, n) + OpenBlock(lines, n)
    ensures Flatten(Blocks(lines, n + 1)) == NonSpecLines(lines, n + 1) + OpenBlock(lines, n + 1)
  {
    RowOpenBlock(lines, n);
    RowPassed(lines, n);
    var l := lines[n];
    assert NonSpecLines(lines, n) + ([l] + OpenBlock(lines, n + 1)) == NonSpecLines(lines, n) + [l] + OpenBlock(lines, n + 1);
  }

  /** A row adds no block and is one more non-specification line. */
  lemma RowPassed(lines: seq<string>, n: nat)
    requires n < |lines| && Plain(lines[n])
    ensures Blocks(lines, n + 1) == Blocks(lines, n)
    ensures NonSpecLines(lines, n + 1) == NonSpecLines(lines, n) + [lines[n]]
  {
  }

  /** A row inside a block moves from the open rest of the block to the lines already passed. */
  lemma RowOpenBlock(lines: seq<string>, n: nat)
    requires n < |lines| && Plain(lines[n]) && InBody(lines, n)
    ensures OpenBlock(lines, n) == [lines[n]] + OpenBlock(lines, n + 1)
  {
    assert PrevNonPlain(lines, n + 1) == PrevNonPlain(lines, n);
    var e := NextNonPlain(lines, n);
    assert e == NextNonPlain(lines, n + 1);
    assert lines[n..e] == [lines[n]] + lines[n + 1..e];
  }

  lemma {:induction false} PartitionUpTo(lines: seq<string>, n: nat)
    requires n <= EofIndex(lines) && FirstError(lines, n).None?
    ensures Flatten(Blocks(lines, n)) == NonSpecLines(lines, n) + OpenBlock(lines, n)
    decreases n
  {
    if n == 0 {
      assert OpenBlock(lines, 0) == [];
    } else {
      assert FirstError(lines, n - 1).None?;
      PartitionUpTo(lines, n - 1);
      PartitionStep(lines, n - 1);
    }
  }

  /**
   * A successful grouping partitions the lines before "EOF": the specifications are the ':'
   * lines, and the section blocks, concatenated, are exactly the other lines, in order.
   */
  lemma GroupPartitions(lines: seq<string>)
    requires GroupSpec(lines).Ok?
    ensures var e := EofIndex(lines);
      GroupSpec(lines).value.0 == SpecLines(lines, e)
      && Flatten(GroupSpec(lines).value.1) == NonSpecLines(lines, e)
  {
    var e := EofIndex(lines);
    PartitionUpTo(lines, e);
    assert OpenBlock(lines, e) == [] by {
      if InBody(lines, e) {
        assert NextNonPlain(lines, e) == e;
      }
    }
  }

  /**
   * Every block starts with its header line, the rest of it is plain data rows, and it is
   * followed by a "_SECTION" or "EOF" line (or ':' line) or by the end of the lines.
   */
  predicate BlockShape(lines: seq<string>, block: seq<string>) {
    && |block| >= 1 && IsHeader(block[0])
    && (forall k :: 1 <= k < |block| ==> Plain(block[k]))
  }

  lemma {:induction false} BlocksShaped(lines: seq<string>, n: nat)
    requires n <= |lines|
    ensures forall b :: 0 <= b < |Blocks(lines, n)| ==> BlockShape(lines, Blocks(lines, n)[b])
    decreases n
  {
    if n > 0 {
      BlocksShaped(lines, n - 1);
      if IsHeader(lines[n - 1]) {
        var blk := lines[n - 1..NextNonPlain(lines, n)];
        assert forall k :: 1 <= k < |blk| ==> blk[k] == lines[n - 1 + k];
        assert BlockShape(lines, blk);
      }
    }
  }

  /** Each section block is a header line followed by plain data rows. */
  lemma GroupBlocksShaped(lines: seq<string>)
    requires GroupSpec(lines).Ok?
    ensures forall b :: 0 <= b < |GroupSpec(lines).value.1| ==> BlockShape(lines, GroupSpec(lines).value.1[b])
  {
    BlocksShaped(lines, EofIndex(lines));
  }

  lemma ErrorBeforeEof(lines: seq<string>, i: nat)
    requires i < EofIndex(lines) && LineError(lines, i).Some?
    ensures GroupSpec(lines).Err?
  {
    assert FirstError(lines, i + 1).Some?;
    FirstErrorStable(lines, i + 1, EofIndex(lines));
  }

  /** A ':' line that follows a section header, with only data rows between, makes grouping fail. */
  lemma SpecAfterSectionFails(lines: seq<string>, h: nat, j: nat)
    requires h < j < |lines| && h < EofIndex(lines)
    requires IsHeader(lines[h]) && HasColon(lines[j])
    requires forall k :: h < k < j ==> Plain(lines[k])
    ensures GroupSpec(lines).Err?
  {
    NextNonPlainIs(lines, h + 1, j);
    ErrorBeforeEof(lines, h);
  }

  /** A line before "EOF" that is neither a specification nor a header nor in a section body makes grouping fail. */
  lemma StrayLineFails(lines: seq<string>, i: nat)
    requires i < EofIndex(lines) && !HasColon(lines[i]) && !HasSection(lines[i]) && !InBody(lines, i)
    ensures GroupSpec(lines).Err?
  {
    ErrorBeforeEof(lines, i);
  }

  /** The first position of x in xs (Python's list.index). */
  function IndexOf(xs: seq<string>, x: string): (k: nat)
    requires x in xs
    ensures k < |xs| && xs[k] == x && x !in xs[..k]
  {
    if xs[0] == x then 0 else 1 + IndexOf(xs[1..], x)
  }

  /** The inner scan of the source: where a block that starts at start ends, or the ':' error. */
  function BlockEnd(lines: seq<string>, start: nat): Result<nat>
    requires start < |lines|
  {
    var e := NextNonPlain(lines, start + 1);
    if e < |lines| && HasColon(lines[e]) then Err(ValueError(SpecAfterSection)) else Ok(e)
  }

  /**
   * The loop of group_specifications_and_sections as written, from line idx on: the start
   * of a block is looked up with lines.index(line), the first equal line of the whole list.
   */
  function GroupAsWrittenFrom(lines: seq<string>, idx: nat, endSection: nat, specs: seq<string>, sections: seq<seq<string>>)
    : Result<(seq<string>, seq<seq<string>>)>
    requires idx <= |lines|
    decreases |lines| - idx
  {
    if idx == |lines| then Ok((specs, sections))
    else
      var line := lines[idx];
      if HasEof(line) then Ok((specs, sections))
      else if idx < endSection then GroupAsWrittenFrom(lines, idx + 1, endSection, specs, sections)
      else if HasColon(line) then GroupAsWrittenFrom(lines, idx + 1, endSection, specs + [line], sections)
      else if HasSection(line) then
        var start := IndexOf(lines, line);
        match BlockEnd(lines, start)
        case Err(e) => Err(e)
        case Ok(e) => GroupAsWrittenFrom(lines, idx + 1, e, specs, sections + [lines[start..e]])
      else Err(RuntimeError(NotVrplib))
  }

  function GroupAsWritten(lines: seq<string>): Result<(seq<string>, seq<seq<string>>)> {
    GroupAsWrittenFrom(lines, 0, 0, [], [])
  }

  /** No section header before "EOF" is repeated by a later line before it. */
  predicate DistinctHeaders(lines: seq<string>) {
    forall i, j :: 0 <= i < j < EofIndex(lines) && IsHeader(lines[i]) ==> lines[i] != lines[j]
  }

  /** list.index finds a line at its own position when no equal line comes before it. */
  lemma {:induction false} IndexOfIs(xs: seq<string>, k: nat)
    requires k < |xs| && forall i :: 0 <= i < k ==> xs[i] != xs[k]
    ensures IndexOf(xs, xs[k]) == k
    decreases k
  {
    if k > 0 {
      assert xs[1..][k - 1] == xs[k];
      IndexOfIs(xs[1..], k - 1);
    }
  }

  /** The state the corrected loop keeps on reaching line idx without error. */
  predicate LoopState(lines: seq<string>, idx: nat, endSection: nat, header: int) {
    && idx <= |lines|
    && (forall k :: 0 <= k < idx ==> !HasEof(lines[k]))
    && FirstError(lines, idx).None?
    && header < idx
    && (forall h :: 0 <= h < idx && header < h ==> !IsHeader(lines[h]))
    && (header >= 0 ==> IsHeader(lines[header]) && endSection == NextNonPlain(lines, header + 1))
    && (header < 0 ==> endSection == 0)
  }

  /** The rest of the loop as written from line idx, with the corrected loop's lists so far. */
  function AsWrittenRest(lines: seq<string>, idx: nat, endSection: nat): Result<(seq<string>, seq<seq<string>>)>
    requires idx <= |lines|
  {
    GroupAsWrittenFrom(lines, idx, endSection, SpecLines(lines, idx), Blocks(lines, idx))
  }

  /** The "EOF" line or the end of the lines: both loops return what they have. */
  lemma AsWrittenEnd(lines: seq<string>, idx: nat, endSection: nat, header: int)
    requires LoopState(lines, idx, endSection, header)
    requires idx == |lines| || HasEof(lines[idx])
    ensures AsWrittenRest(lines, idx, endSection) == GroupSpec(lines)
  {
    EofFromIs(lines, 0, idx);
    assert AsWrittenRest(lines, idx, endSection) == Ok((SpecLines(lines, idx), Blocks(lines, idx)));
  }

  /** A line inside the current block: both loops skip it. */
  lemma AsWrittenSkip(lines: seq<string>, idx: nat, endSection: nat, header: int)
    requires LoopState(lines, idx, endSection, header) && idx < |lines| && !HasEof(lines[idx])
    requires idx < endSection
    ensures LoopState(lines, idx + 1, endSection, header)
    ensures AsWrittenRest(lines, idx, endSection) == AsWrittenRest(lines, idx + 1, endSection)
  {
    SkipStep(lines, header, idx);
  }

  /** A specification line: both loops append it to the specifications. */
  lemma AsWrittenSpec(lines: seq<string>, idx: nat, endSection: nat, header: int)
    requires LoopState(lines, idx, endSection, header) && idx < |lines| && !HasEof(lines[idx])
    requires endSection <= idx && HasColon(lines[idx])
    ensures LoopState(lines, idx + 1, endSection, header)
    ensures AsWrittenRest(lines, idx, endSection) == AsWrittenRest(lines, idx + 1, endSection)
  {
    var line := lines[idx];
    assert SpecLines(lines, idx + 1) == SpecLines(lines, idx) + [line];
    assert Blocks(lines, idx + 1) == Blocks(lines, idx);
    assert GroupAsWrittenFrom(lines, idx, endSection, SpecLines(lines, idx), Blocks(lines, idx))
      == GroupAsWrittenFrom(lines, idx + 1, endSection, SpecLines(lines, idx) + [line], Blocks(lines, idx));
  }

  /**
   * A header line: with no equal line before it, list.index finds it at its own position, so the
   * loop as written opens the same block as the corrected one, or fails with the same error.
   */
  lemma AsWrittenHeader(lines: seq<string>, idx: nat, endSection: nat, header: int) returns (next: nat)
    requires LoopState(lines, idx, endSection, header) && idx < |lines| && !HasEof(lines[idx])
    requires IndexOf(lines, lines[idx]) == idx
    requires endSection <= idx && IsHeader(lines[idx])
    ensures BlockEnd(lines, idx).Err? ==> AsWrittenRest(lines, idx, endSection) == GroupSpec(lines)
    ensures BlockEnd(lines, idx).Ok? ==>
      && next == BlockEnd(lines, idx).value
      && LoopState(lines, idx + 1, next, idx)
      && AsWrittenRest(lines, idx, endSection) == AsWrittenRest(lines, idx + 1, next)
  {
    EofAfter(lines, idx);
    next := NextNonPlain(lines, idx + 1);
    if BlockEnd(lines, idx).Err? {
      ErrorAt(lines, idx);
    } else {
      assert SpecLines(lines, idx + 1) == SpecLines(lines, idx);
      assert Blocks(lines, idx + 1) == Blocks(lines, idx) + [lines[idx..next]];
      assert GroupAsWrittenFrom(lines, idx, endSection, SpecLines(lines, idx), Blocks(lines, idx))
        == GroupAsWrittenFrom(lines, idx + 1, next, SpecLines(lines, idx), Blocks(lines, idx) + [lines[idx..next]]);
    }
  }

  /** A header line before "EOF", in lines without repeated headers, is the first copy of itself. */
  lemma FirstCopy(lines: seq<string>, idx: nat)
    requires DistinctHeaders(lines)
    requires idx < |lines| && IsHeader(lines[idx]) && forall k :: 0 <= k <= idx ==> !HasEof(lines[k])
    ensures IndexOf(lines, lines[idx]) == idx
  {
    EofAfter(lines, idx);
    IndexOfIs(lines, idx);
  }

  /** Any other line outside a block: both loops raise RuntimeError. */
  lemma AsWrittenStray(lines: seq<string>, idx: nat, endSection: nat, header: int)
    requires LoopState(lines, idx, endSection, header) && idx < |lines| && !HasEof(lines[idx])
    requires endSection <= idx && !HasColon(lines[idx]) && !HasSection(lines[idx])
    ensures AsWrittenRest(lines, idx, endSection) == GroupSpec(lines)
  {
    StrayStep(lines, header, endSection, idx);
    ErrorAt(lines, idx);
  }

  /**
   * From line idx on, the loop as written agrees with the corrected grouping, given the state
   * the corrected loop keeps at idx: the specifications and blocks so far, and the end of the
   * block of the last header.
   */
  lemma {:induction false} AsWrittenFrom(lines: seq<string>, idx: nat, endSection: nat, header: int)
    requires DistinctHeaders(lines)
    requires LoopState(lines, idx, endSection, header)
    ensures AsWrittenRest(lines, idx, endSection) == GroupSpec(lines)
    decreases |lines| - idx
  {
    if idx == |lines| || HasEof(lines[idx]) {
      AsWrittenEnd(lines, idx, endSection, header);
    } else if idx < endSection {
      AsWrittenSkip(lines, idx, endSection, header);
      AsWrittenFrom(lines, idx + 1, endSection, header);
      assert AsWrittenRest(lines, idx, endSection) == GroupSpec(lines);
    } else if HasColon(lines[idx]) {
      AsWrittenSpec(lines, idx, endSection, header);
      AsWrittenFrom(lines, idx + 1, endSection, header);
      assert AsWrittenRest(lines, idx, endSection) == GroupSpec(lines);
    } else if HasSection(lines[idx]) {
      FirstCopy(lines, idx);
      var next := AsWrittenHeader(lines, idx, endSection, header);
      if BlockEnd(lines, idx).Ok? {
        AsWrittenFrom(lines, idx + 1, next, idx);
      }
      assert AsWrittenRest(lines, idx, endSection) == GroupSpec(lines);
    } else {
      AsWrittenStray(lines, idx, endSection, header);
      assert AsWrittenRest(lines, idx, endSection) == GroupSpec(lines);
    }
  }

  /**
   * On lines where no section header before "EOF" is repeated, the loop as written and the
   * corrected grouping agree: the same specifications and blocks, or the same error. Only a
   * repeated header line tells them apart (RepeatedHeaderSkipsOrderCheck).
   */
  lemma GroupAsWrittenAgrees(lines: seq<string>)
    requires DistinctHeaders(lines)
    ensures GroupAsWritten(lines) == GroupSpec(lines)
  {
    AsWrittenFrom(lines, 0, 0, -1);
  }

  /** The line facts the repeated-header example relies on. */
  lemma RepeatedHeaderLines()
    ensures IsHeader("A_SECTION") && !HasEof("A_SECTION")
    ensures HasColon("K: V") && !HasSection("K: V") && !HasEof("K: V")
    ensures HasEof("EOF") && !HasColon("EOF")
  {
    HeaderLine();
    SpecLine();
    assert MatchAt("EOF", "EOF", 0);
  }

  lemma HeaderLine()
    ensures IsHeader("A_SECTION") && !HasEof("A_SECTION")
  {
    assert MatchAt("A_SECTION", "_SECTION", 1);
    NotContainsMissingChar("A_SECTION", "EOF", 'F');
  }

  lemma SpecLine()
    ensures HasColon("K: V") && !HasSection("K: V") && !HasEof("K: V")
  {
    NotContainsMissingChar("K: V", "EOF", 'F');
    NotContainsMissingChar("K: V", "_SECTION", '_');
  }

  /**
   * A repeated header line restarts at the first copy: its block is the first copy's block
   * again, the lines after it are treated as top level, and a ':' line there is taken as a
   * specification instead of raising "Specification presented after section.".
   */
  lemma RepeatedHeaderSkipsOrderCheck()
    ensures GroupAsWritten(["A_SECTION", "A_SECTION", "K: V", "EOF"]) == Ok((["K: V"], [["A_SECTION"], ["A_SECTION"]]))
  {
    var lines := ["A_SECTION", "A_SECTION", "K: V", "EOF"];
    RepeatedHeaderLines();
    assert NextNonPlain(lines, 1) == 1;
    assert IndexOf(lines, "A_SECTION") == 0;
    var blocks := [["A_SECTION"], ["A_SECTION"]];
    assert lines[0..1] == ["A_SECTION"];
    assert BlockEnd(lines, 0) == Ok(1);
    assert GroupAsWrittenFrom(lines, 3, 1, ["K: V"], blocks) == Ok((["K: V"], blocks));
    assert [] + ["K: V"] == ["K: V"];
    assert GroupAsWrittenFrom(lines, 2, 1, [], blocks) == Ok((["K: V"], blocks));
    assert [["A_SECTION"]] + [lines[0..1]] == blocks;
    assert GroupAsWrittenFrom(lines, 1, 1, [], [["A_SECTION"]]) == Ok((["K: V"], blocks));
    assert [] + [lines[0..1]] == [["A_SECTION"]];
    assert GroupAsWrittenFrom(lines, 0, 0, [], []) == Ok((["K: V"], blocks));
  }

  /** A one-character data row is plain. */
  lemma DataLine(l: string)
    requires |l| == 1 && l[0] != ':' && l[0] != 'F' && l[0] != '_'
    ensures Plain(l)
  {
    NotContainsMissingChar(l, "EOF", 'F');
    NotContainsMissingChar(l, "_SECTION", '_');
  }

  /**
   * A header repeated after a data row: the second copy again gets the first copy's block, whose
   * end lies before it, so the row after the second copy is top level and raises RuntimeError.
   */
  lemma RepeatedHeaderStrays(lines: seq<string>)
    requires lines == ["A_SECTION", "1", "A_SECTION", "2", "EOF"]
    ensures GroupAsWritten(lines) == Err(RuntimeError(NotVrplib))
  {
    HeaderLine();
    DataLine(lines[1]);
    DataLine(lines[3]);
    assert NextNonPlain(lines, 2) == 2;
    assert NextNonPlain(lines, 1) == 2;
    assert IndexOf(lines, "A_SECTION") == 0;
    assert BlockEnd(lines, 0) == Ok(2);
    var block := lines[0..2];
    assert GroupAsWrittenFrom(lines, 3, 2, [], [block, block]) == Err(RuntimeError(NotVrplib));
    assert GroupAsWrittenFrom(lines, 2, 2, [], [block]) == Err(RuntimeError(NotVrplib));
    assert GroupAsWrittenFrom(lines, 1, 2, [], [block]) == Err(RuntimeError(NotVrplib));
    assert [] + [block] == [block];
  }

  /** The corrected grouping keeps both copies of the header, each with the row after it. */
  lemma RepeatedHeaderTwoBlocks(lines: seq<string>)
    requires lines == ["A_SECTION", "1", "A_SECTION", "2", "EOF"]
    ensures GroupSpec(lines) == Ok(([], [lines[0..2], lines[2..4]]))
  {
    HeaderLine();
    DataLine(lines[1]);
    DataLine(lines[3]);
    assert MatchAt(lines[4], "EOF", 0);
    assert EofIndex(lines) == 4 by { EofFromIs(lines, 0, 4); }
    assert NextNonPlain(lines, 1) == 2;
    assert NextNonPlain(lines, 3) == 4;
    PrevNonPlainIs(lines, 0, 1);
    PrevNonPlainIs(lines, 2, 3);
    assert !HasColon(lines[4]);
    assert LineError(lines, 0).None? && LineError(lines, 1).None?;
    assert LineError(lines, 2).None? && LineError(lines, 3).None?;
    assert FirstError(lines, 1).None?;
    assert FirstError(lines, 2).None?;
    assert FirstError(lines, 3).None?;
    assert FirstError(lines, 4).None?;
    assert SpecLines(lines, 1) == [];
    assert SpecLines(lines, 2) == [];
    assert SpecLines(lines, 3) == [];
    assert SpecLines(lines, 4) == [];
    assert Blocks(lines, 1) == [lines[0..2]];
    assert Blocks(lines, 2) == [lines[0..2]];
    assert Blocks(lines, 3) == [lines[0..2], lines[2..4]];
    assert Blocks(lines, 4) == [lines[0..2], lines[2..4]];
  }

  /** The same lines, grouped with the block starting at the current line, raise the ordering error. */
  lemma RepeatedHeaderRejected()
    ensures GroupSpec(["A_SECTION", "A_SECTION", "K: V", "EOF"]) == Err(ValueError(SpecAfterSection))
  {
    var lines := ["A_SECTION", "A_SECTION", "K: V", "EOF"];
    RepeatedHeaderLines();
    assert NextNonPlain(lines, 1) == 1;
    assert NextNonPlain(lines, 2) == 2;
    assert EofIndex(lines) == 3 by { EofFromIs(lines, 0, 3); }
    assert LineError(lines, 0).None?;
    assert LineError(lines, 1) == Some(ValueError(SpecAfterSection));
    assert FirstError(lines, 2) == Some(ValueError(SpecAfterSection));
    FirstErrorStable(lines, 2, 3);
  }
}
