/**
 What the pyWINDOW writers and readers promise each other: a file written
 by `_save_xyz` or `_save_pdb` reads back, through `readlines` and the
 matching reader, to the data it was written from; and the place where the
 PDB reader as written refuses a file its own writer produced.
 */
module PyWindowRoundTrip {
  import opened Results
  import opened PyText
  import opened PyWindowErrors
  import opened PyWindowInput
  import opened PyWindowOutput

  // ---------------------------------------------------------------------
  // Lines without line breaks

  lemma WordHasNoNewline(w: string)
    requires IsWord(w)
    ensures NoNewline(w)
  {
    assert forall i :: 0 <= i < |w| ==> w[i] != '\n' && w[i] != '\r';
  }

  lemma {:induction false} JoinHasNoNewline(sep: string, parts: seq<string>)
    requires NoNewline(sep)
    requires forall k :: 0 <= k < |parts| ==> NoNewline(parts[k])
    ensures NoNewline(Join(sep, parts))
    decreases |parts|
  {
    if |parts| > 1 {
      JoinHasNoNewline(sep, parts[1..]);
    }
  }

  lemma DigitsHaveNoNewline(n: nat)
    ensures NoNewline(NatToString(n))
  {
    var s := NatToString(n);
    assert forall i :: 0 <= i < |s| ==> s[i] != '\n' && s[i] != '\r';
  }

  // ---------------------------------------------------------------------
  // XYZ

  /** A system `_save_xyz` can write so that `_read_xyz` reads it back:
      elements and printed coordinates are single tokens, and the remark
      stays on its line. */
  predicate XyzWritable(system: MolecularSystem, remark: string)
  {
    && NoNewline(remark)
    && (forall k :: 0 <= k < |system.elements| ==> IsWord(system.elements[k]))
    && (forall k :: 0 <= k < |system.coordinates| ==>
          IsWord(system.coordinates[k].x.fixed2) && IsWord(system.coordinates[k].y.fixed2)
          && IsWord(system.coordinates[k].z.fixed2))
  }

  /** The tokens the XYZ writer prints for one coordinate. */
  function XyzTokens(c: Coordinate): seq<string>
  {
    [c.x.fixed2, c.y.fixed2, c.z.fixed2]
  }

  /** No line the XYZ writer produces breaks in two. */
  lemma XyzLinesHaveNoNewline(system: MolecularSystem, remark: string)
    requires XyzWritable(system, remark)
    ensures var lines := XyzLines(system.elements, system.coordinates, remark);
      forall k :: 0 <= k < |lines| ==> NoNewline(lines[k])
  {
    var elements := system.elements;
    var coordinates := system.coordinates;
    var lines := XyzLines(elements, coordinates, remark);
    forall k | 0 <= k < |lines|
      ensures NoNewline(lines[k])
    {
      if k == 0 {
        DigitsHaveNoNewline(|elements|);
      } else if k >= 2 {
        var c := coordinates[k - 2];
        var words := [elements[k - 2], c.x.fixed2, c.y.fixed2, c.z.fixed2];
        forall j | 0 <= j < 4
          ensures NoNewline(words[j])
        {
          WordHasNoNewline(words[j]);
        }
        JoinHasNoNewline(" ", words);
        assert lines[k] == Join(" ", words);
      }
    }
  }

  /** Each atom line of an XYZ file splits into the element and the three
      printed coordinates. */
  lemma XyzAtomLineSplits(system: MolecularSystem, remark: string, k: nat)
    requires XyzWritable(system, remark)
    requires k < Min(|system.elements|, |system.coordinates|)
    ensures var lines := XyzLines(system.elements, system.coordinates, remark);
      Split(lines[k + 2] + "\n") == [system.elements[k]] + XyzTokens(system.coordinates[k])
  {
    var c := system.coordinates[k];
    SplitJoinedWords([system.elements[k], c.x.fixed2, c.y.fixed2, c.z.fixed2]);
  }

  /** Lines that split into an element and three coordinate tokens read
      as exactly those. */
  lemma ReadXyzTokens(read: seq<string>, elements: seq<string>, coordinates: seq<seq<string>>)
    requires |read| >= 2 && |elements| == |coordinates| == |read| - 2
    requires forall k :: 0 <= k < |coordinates| ==> |coordinates[k]| == 3
    requires forall k :: 2 <= k < |read| ==> Split(read[k]) == [elements[k - 2]] + coordinates[k - 2]
    ensures ReadXyz(read) == Ok(XyzSystem(read[1], elements, coordinates))
  {
    var r := ReadXyz(read);
    assert r.Ok?;
    forall k | 0 <= k < |elements|
      ensures r.value.elements[k] == elements[k] && r.value.coordinates[k] == coordinates[k]
    {
      var ws := Split(read[k + 2]);
      assert ws == [r.value.elements[k]] + r.value.coordinates[k] + ws[4..];
      assert ws[4..] == [];
      assert r.value.coordinates[k] == ws[1..];
    }
    assert r.value.elements == elements;
    assert r.value.coordinates == coordinates;
    assert r.value.fileRemarks == read[1];
  }

  /** The coordinate tokens of the first `n` atoms, as the XYZ writer
      prints them. */
  function PrintedTokens(coordinates: seq<Coordinate>, n: nat): (r: seq<seq<string>>)
    requires n <= |coordinates|
    ensures |r| == n
    ensures forall k :: 0 <= k < n ==> |r[k]| == 3
  {
    seq(n, k requires 0 <= k < n => XyzTokens(coordinates[k]))
  }

  /** The lines `readlines` gives back for an XYZ text are the written lines,
      each with its line feed. */
  lemma XyzReadsAsLines(system: MolecularSystem, remark: string)
    requires XyzWritable(system, remark)
    ensures ReadLines(SaveXyz(system, remark)) == Terminate(XyzLines(system.elements, system.coordinates, remark))
  {
    XyzLinesHaveNoNewline(system, remark);
    ReadTerminatedLines(XyzLines(system.elements, system.coordinates, remark));
  }

  /** Every atom line read back splits into the element and the three
      printed coordinates. */
  lemma XyzReadLinesSplit(system: MolecularSystem, remark: string)
    requires XyzWritable(system, remark)
    ensures var read := Terminate(XyzLines(system.elements, system.coordinates, remark));
      var n := Min(|system.elements|, |system.coordinates|);
      forall k :: 2 <= k < |read| ==>
        Split(read[k]) == [system.elements[..n][k - 2]] + PrintedTokens(system.coordinates, n)[k - 2]
  {
    var lines := XyzLines(system.elements, system.coordinates, remark);
    var read := Terminate(lines);
    var n := Min(|system.elements|, |system.coordinates|);
    forall k | 2 <= k < |read|
      ensures Split(read[k]) == [system.elements[..n][k - 2]] + PrintedTokens(system.coordinates, n)[k - 2]
    {
      assert read[k] == lines[k] + "\n";
      XyzAtomLineSplits(system, remark, k - 2);
    }
  }

  /** Reading back an XYZ file gives the remark line, and the elements and
      printed coordinates of every atom `zip` paired. */
  lemma XyzRoundTrip(system: MolecularSystem, remark: string)
    requires XyzWritable(system, remark)
    ensures
      var n := Min(|system.elements|, |system.coordinates|);
      ReadXyz(ReadLines(SaveXyz(system, remark)))
        == Ok(XyzSystem(
                remark + "\n",
                system.elements[..n],
                PrintedTokens(system.coordinates, n)))
  {
    var n := Min(|system.elements|, |system.coordinates|);
    var read := Terminate(XyzLines(system.elements, system.coordinates, remark));
    XyzReadsAsLines(system, remark);
    XyzReadLinesSplit(system, remark);
    assert |read| == n + 2 && read[1] == remark + "\n";
    ReadXyzTokens(read, system.elements[..n], PrintedTokens(system.coordinates, n));
  }

  // ---------------------------------------------------------------------
  // PDB

  lemma SpacesHaveNoNewline(n: nat)
    ensures NoNewline(Spaces(n))
  {
    var s := Spaces(n);
    assert forall i :: 0 <= i < |s| ==> s[i] != '\n' && s[i] != '\r';
  }

  lemma PaddingHasNoNewline(s: string, width: nat)
    requires NoNewline(s)
    ensures NoNewline(RJust(s, width)) && NoNewline(LJust(s, width)) && NoNewline(Center(s, width))
  {
    SpacesHaveNoNewline(width);
    if |s| < width {
      var margin := width - |s|;
      var left := CenterLeft(margin, width);
      SpacesHaveNoNewline(left);
      SpacesHaveNoNewline(margin - left);
      SpacesHaveNoNewline(width - |s|);
    }
  }

  lemma {:induction false} ConcatHasNoNewline(parts: seq<string>)
    requires forall k :: 0 <= k < |parts| ==> NoNewline(parts[k])
    ensures NoNewline(Concat(parts))
    decreases |parts|
  {
    if parts != [] {
      ConcatHasNoNewline(parts[1..]);
    }
  }

  lemma IntHasNoNewline(i: int)
    ensures NoNewline(IntToString(i))
  {
    if i < 0 {
      DigitsHaveNoNewline(-i);
    } else {
      DigitsHaveNoNewline(i);
    }
  }

  /** The six cell values as the reader slices them back out. */
  function CellTexts(cell: seq<Float>): (r: seq<string>)
    requires |cell| == 6
    ensures |r| == 6
  {
    [cell[0].fixed9_3, cell[1].fixed9_3, cell[2].fixed9_3,
     cell[3].fixed7_2, cell[4].fixed7_2, cell[5].fixed7_2]
  }

  /** The printed coordinates as the reader slices them back out. */
  function PdbTokens(c: Coordinate): seq<string>
  {
    [c.x.fixed8_3, c.y.fixed8_3, c.z.fixed8_3]
  }

  /** An atom whose name, element and coordinates fit their columns and stay
      on one line. */
  predicate AtomFits(name: string, element: string, c: Coordinate)
  {
    && |name| <= 4 && IsStripped(name) && NoNewline(name)
    && |element| <= 2 && IsStripped(element) && NoNewline(element)
    && |c.x.fixed8_3| == 8 && |c.y.fixed8_3| == 8 && |c.z.fixed8_3| == 8
    && NoNewline(c.x.fixed8_3) && NoNewline(c.y.fixed8_3) && NoNewline(c.z.fixed8_3)
  }

  /** Residue settings that fit their columns and stay on one line. */
  predicate ResidueFits(settings: PdbSettings)
  {
    && |settings.resName| <= 3 && NoNewline(settings.resName)
    && |settings.chainId| == 1 && NoNewline(settings.chainId)
    && |IntToString(settings.resSeq)| <= 4
  }

  predicate RemarksFit(remarks: Remarks)
  {
    match remarks
    case NoRemarks => true
    case SingleRemark(text) => NoNewline(text)
    case RemarkList(items) => forall k :: 0 <= k < |items| ==> NoNewline(items[k])
  }

  /** A cell of six values that fit their columns and stay on one line. */
  predicate CellFits(cell: seq<Float>)
  {
    && |cell| == 6
    && (forall k :: 0 <= k < 3 ==> |cell[k].fixed9_3| == 9 && NoNewline(cell[k].fixed9_3))
    && (forall k :: 3 <= k < 6 ==> |cell[k].fixed7_2| == 7 && NoNewline(cell[k].fixed7_2))
  }

  /** A system and settings `_save_pdb` writes in the column layout the
      reader slices. */
  predicate PdbWritable(system: MolecularSystem, settings: PdbSettings)
  {
    && system.atomIds.Some?
    && var ids := system.atomIds.value;
    && |system.elements| >= |ids| && |system.coordinates| >= |ids|
    && |ids| <= 99999
    && (forall i :: 0 <= i < |ids| ==> AtomFits(ids[i], system.elements[i], system.coordinates[i]))
    && ResidueFits(settings)
    && RemarksFit(settings.remarks)
    && NoNewline(settings.spaceGroup.GetOr("P1"))
    && (system.unitCell.Some? ==> CellFits(system.unitCell.value))
  }

  /** An atom line stays on one line. */
  lemma AtomLineHasNoNewline(serial: nat, name: string, settings: PdbSettings, c: Coordinate, element: string)
    requires AtomFits(name, element, c) && ResidueFits(settings)
    ensures NoNewline(AtomLine(serial, name, settings, c, element))
  {
    DigitsHaveNoNewline(serial);
    PaddingHasNoNewline(NatToString(serial), 5);
    assert NoNewline(AtomLineLead(serial));
    PaddingHasNoNewline(name, 4);
    PaddingHasNoNewline(Center(name, 4), 4);
    assert NoNewline(AtomNameField(name));
    IntHasNoNewline(settings.resSeq);
    PaddingHasNoNewline(settings.resName, 3);
    PaddingHasNoNewline(IntToString(settings.resSeq), 4);
    assert NoNewline(ResidueFields(settings));
    assert NoNewline(CoordinateFields(c));
    PaddingHasNoNewline(element, 2);
    PaddingHasNoNewline(RJust(element, 2), 2);
    SpacesHaveNoNewline(22);
    assert NoNewline(ElementField(element));
  }

  /** The columns of a line read the same with its line feed after it. */
  lemma SliceBeforeFeed(text: string, i: nat, j: nat)
    requires i <= j <= |text|
    ensures Slice(text + "\n", i, j) == text[i..j]
  {
    assert (text + "\n")[i..j] == text[i..j];
  }

  /** An atom line, with its line feed, reads back as its name, element and
      printed coordinates. */
  lemma AtomLineReads(serial: nat, name: string, settings: PdbSettings, c: Coordinate, element: string)
    requires serial < 100000
    requires AtomFits(name, element, c) && ResidueFits(settings)
    ensures var line := AtomLine(serial, name, settings, c, element) + "\n";
      && KindOf(line) == AtomRecord
      && AtomName(line) == name && AtomElement(line) == element
      && AtomCoordinates(line) == PdbTokens(c)
  {
    var text := AtomLine(serial, name, settings, c, element);
    AtomLineColumns(serial, name, settings, c, element);
    SliceBeforeFeed(text, 0, 6);
    SliceBeforeFeed(text, 12, 16);
    SliceBeforeFeed(text, 76, 78);
    SliceBeforeFeed(text, 30, 38);
    SliceBeforeFeed(text, 38, 46);
    SliceBeforeFeed(text, 46, 54);
    StripCenter(name, 4);
    StripRJust(element, 2);
  }

  /** A `CRYST1` line stays on one line. */
  lemma CrystLineHasNoNewline(cell: seq<Float>, spaceGroup: Option<string>)
    requires CellFits(cell) && NoNewline(spaceGroup.GetOr("P1"))
    ensures NoNewline(CrystLine(cell, spaceGroup))
  {
    var text := CrystLine(cell, spaceGroup);
    CrystLineColumns(cell, spaceGroup);
    assert text == text[..6] + text[6..15] + text[15..24] + text[24..33] + text[33..40] + text[40..47] + text[47..54] + text[54..];
  }

  /** A `CRYST1` line reads back as its six values. */
  lemma CrystLineReads(cell: seq<Float>, spaceGroup: Option<string>)
    requires CellFits(cell)
    ensures var line := CrystLine(cell, spaceGroup) + "\n";
      && KindOf(line) == CrystRecord
      && CellFields(line) == CellTexts(cell)
  {
    var text := CrystLine(cell, spaceGroup);
    CrystLineColumns(cell, spaceGroup);
    SliceBeforeFeed(text, 0, 6);
    SliceBeforeFeed(text, 6, 15);
    SliceBeforeFeed(text, 15, 24);
    SliceBeforeFeed(text, 24, 33);
    SliceBeforeFeed(text, 33, 40);
    SliceBeforeFeed(text, 40, 47);
    SliceBeforeFeed(text, 47, 54);
  }

  // ---------------------------------------------------------------------
  // Record filters over a written file

  lemma {:induction false} FilterAll(ls: seq<string>, keep: string -> bool)
    requires forall k :: 0 <= k < |ls| ==> keep(ls[k])
    ensures Filter(ls, keep) == ls
    decreases |ls|
  {
    if ls != [] {
      FilterAll(ls[1..], keep);
      assert ls == [ls[0]] + ls[1..];
    }
  }

  lemma {:induction false} FilterNone(ls: seq<string>, keep: string -> bool)
    requires forall k :: 0 <= k < |ls| ==> !keep(ls[k])
    ensures Filter(ls, keep) == []
    decreases |ls|
  {
    if ls != [] {
      FilterNone(ls[1..], keep);
    }
  }

  /** Lines that all fail `keep` add nothing after a block... */
  lemma DropAfter(x: seq<string>, y: seq<string>, keep: string -> bool)
    requires forall k :: 0 <= k < |y| ==> !keep(y[k])
    ensures Filter(x + y, keep) == Filter(x, keep)
  {
    FilterAppend(x, y, keep);
    FilterNone(y, keep);
    assert Filter(x, keep) + [] == Filter(x, keep);
  }

  /** ... nor before it. */
  lemma DropBefore(x: seq<string>, y: seq<string>, keep: string -> bool)
    requires forall k :: 0 <= k < |x| ==> !keep(x[k])
    ensures Filter(x + y, keep) == Filter(y, keep)
  {
    FilterAppend(x, y, keep);
    FilterNone(x, keep);
    assert [] + Filter(y, keep) == Filter(y, keep);
  }

  /** Filtering four blocks of which only `mine` passes `keep` gives that
      block back. */
  lemma FilterBlocks(a: seq<string>, b: seq<string>, c: seq<string>, d: seq<string>,
                     keep: string -> bool, mine: nat)
    requires mine < 4
    requires forall k :: 0 <= k < |a| ==> keep(a[k]) == (mine == 0)
    requires forall k :: 0 <= k < |b| ==> keep(b[k]) == (mine == 1)
    requires forall k :: 0 <= k < |c| ==> keep(c[k]) == (mine == 2)
    requires forall k :: 0 <= k < |d| ==> keep(d[k]) == (mine == 3)
    ensures Filter(a + b + c + d, keep) == [a, b, c, d][mine]
  {
    if mine == 3 {
      DropBefore(a + b + c, d, keep);
      FilterAll(d, keep);
    } else {
      DropAfter(a + b + c, d, keep);
      if mine == 2 {
        DropBefore(a + b, c, keep);
        FilterAll(c, keep);
      } else {
        DropAfter(a + b, c, keep);
        if mine == 1 {
          DropBefore(a, b, keep);
          FilterAll(b, keep);
        } else {
          DropAfter(a, b, keep);
          FilterAll(a, keep);
        }
      }
    }
  }

  /** The records of one kind among four blocks of which only `mine` holds
      that kind. */
  lemma RecordsOfBlocks(a: seq<string>, b: seq<string>, c: seq<string>, d: seq<string>,
                        kind: RecordKind, mine: nat)
    requires mine < 4
    requires forall k :: 0 <= k < |a| ==> (KindOf(a[k]) == kind) == (mine == 0)
    requires forall k :: 0 <= k < |b| ==> (KindOf(b[k]) == kind) == (mine == 1)
    requires forall k :: 0 <= k < |c| ==> (KindOf(c[k]) == kind) == (mine == 2)
    requires forall k :: 0 <= k < |d| ==> (KindOf(d[k]) == kind) == (mine == 3)
    ensures Records(a + b + c + d, kind) == [a, b, c, d][mine]
  {
    FilterBlocks(a, b, c, d, IsKind(kind), mine);
  }

  lemma {:induction false} EndRecordsAppend(a: seq<string>, b: seq<string>)
    ensures EndRecords(a + b) == EndRecords(a) + EndRecords(b)
    decreases |a|
  {
    if a == [] {
      assert a + b == b;
    } else {
      assert (a + b)[1..] == a[1..] + b;
      EndRecordsAppend(a[1..], b);
    }
  }

  /** Remark, cell and atom records are not `END` records. */
  lemma {:induction false} NoEndRecords(ls: seq<string>)
    requires forall k :: 0 <= k < |ls| ==> KindOf(ls[k]) != OtherRecord
    ensures EndRecords(ls) == 0
    decreases |ls|
  {
    if ls != [] {
      var l := ls[0];
      assert |Prefix(l, 6)| == 6 && Prefix(l, 6)[0] != 'E';
      assert Prefix(l, 3)[0] == l[0] == Prefix(l, 6)[0];
      NoEndRecords(ls[1..]);
    }
  }

  lemma EndLineIsOther()
    ensures KindOf("END") == OtherRecord && EndRecords(["END"]) == 1
  {
    assert Prefix("END", 6) == "END";
    assert Prefix("END", 3) == "END";
    assert ["END"][1..] == [];
  }

  /** A written file's lines, remark records first, then cell records,
      then atom records, then `END`, filter back into those three groups
      and hold one `END` record. */
  lemma WrittenRecords(th: seq<string>, tc: seq<string>, ta: seq<string>)
    requires forall k :: 0 <= k < |th| ==> KindOf(th[k]) == RemarkRecord
    requires forall k :: 0 <= k < |tc| ==> KindOf(tc[k]) == CrystRecord
    requires forall k :: 0 <= k < |ta| ==> KindOf(ta[k]) == AtomRecord
    ensures var read := th + tc + ta + ["END"];
      && Records(read, RemarkRecord) == th
      && Records(read, CrystRecord) == tc
      && Records(read, AtomRecord) == ta
      && EndRecords(read) == 1
  {
    var end := ["END"];
    EndLineIsOther();
    RecordsOfBlocks(th, tc, ta, end, RemarkRecord, 0);
    RecordsOfBlocks(th, tc, ta, end, CrystRecord, 1);
    RecordsOfBlocks(th, tc, ta, end, AtomRecord, 2);
    NoEndRecords(th + tc + ta);
    EndRecordsAppend(th + tc + ta, end);
  }

  // ---------------------------------------------------------------------
  // The PDB round trip

  lemma HeaderIsRemark()
    ensures NoNewline(PdbHeader) && KindOf(PdbHeader + "\n") == RemarkRecord
  {
    var line := PdbHeader + "\n";
    assert line[..6] == PdbHeader[..6] == "REMARK";
    assert forall i :: 0 <= i < |PdbHeader| ==> PdbHeader[i] != '\n' && PdbHeader[i] != '\r';
  }

  /** The header and remark lines each stay on one line and read as a
      remark record. */
  lemma HeaderLinesAreRemarks(remarks: Remarks)
    requires RemarksFit(remarks)
    ensures var h := HeaderLines(remarks);
      && (forall k :: 0 <= k < |h| ==> NoNewline(h[k]))
      && (forall k :: 0 <= k < |h| ==> KindOf(h[k] + "\n") == RemarkRecord)
  {
    var h := HeaderLines(remarks);
    var rs := RemarkLines(remarks);
    forall k | 0 <= k < |h|
      ensures NoNewline(h[k]) && KindOf(h[k] + "\n") == RemarkRecord
    {
      if k == 0 {
        HeaderIsRemark();
      } else {
        assert h[k] == rs[k - 1];
        match remarks
        case SingleRemark(text) =>
          RemarkLineIsRemark(text);
        case RemarkList(items) =>
          assert rs[k - 1] == "REMARK " + items[k - 1];
          RemarkLineIsRemark(items[k - 1]);
      }
    }
  }

  /** One user remark line stays on one line and reads as a remark record. */
  lemma RemarkLineIsRemark(text: string)
    requires NoNewline(text)
    ensures NoNewline("REMARK " + text) && KindOf("REMARK " + text + "\n") == RemarkRecord
  {
    var line := "REMARK " + text;
    assert (line + "\n")[..6] == "REMARK";
    assert '\n' !in "REMARK " && '\r' !in "REMARK ";
  }

  /** Every line `_save_pdb` joins stays on one line. */
  lemma PdbLinesHaveNoNewline(system: MolecularSystem, settings: PdbSettings)
    requires PdbWritable(system, settings)
    ensures var lines := PdbLines(system, settings);
      forall k :: 0 <= k < |lines| ==> NoNewline(lines[k])
  {
    var h := HeaderLines(settings.remarks);
    var c := CrystLines(system.unitCell, settings.spaceGroup);
    var a := AtomLines(system, settings);
    var ids := system.atomIds.value;
    HeaderLinesAreRemarks(settings.remarks);
    if system.unitCell.Some? {
      CrystLineHasNoNewline(system.unitCell.value, settings.spaceGroup);
    }
    forall i | 0 <= i < |a|
      ensures NoNewline(a[i])
    {
      AtomLineHasNoNewline(i + 1, ids[i], settings, system.coordinates[i], system.elements[i]);
    }
    assert forall k :: 0 <= k < |h + c + a| ==> NoNewline((h + c + a)[k]);
    assert PdbLines(system, settings) == (h + c + a) + ["END"];
  }

  lemma TerminateAppend(a: seq<string>, b: seq<string>)
    ensures Terminate(a + b) == Terminate(a) + Terminate(b)
  {
  }

  /** The text `_save_pdb` writes reads back as the written lines, each but
      the last `END` with its line feed. */
  lemma PdbReadsAsLines(system: MolecularSystem, settings: PdbSettings)
    requires PdbWritable(system, settings)
    ensures SavePdb(system, settings).Ok?
    ensures ReadLines(SavePdb(system, settings).value)
      == Terminate(HeaderLines(settings.remarks)) + Terminate(CrystLines(system.unitCell, settings.spaceGroup))
         + Terminate(AtomLines(system, settings)) + ["END"]
  {
    var h := HeaderLines(settings.remarks);
    var c := CrystLines(system.unitCell, settings.spaceGroup);
    var a := AtomLines(system, settings);
    var lines := PdbLines(system, settings);
    PdbLinesHaveNoNewline(system, settings);
    ReadJoinedLines(lines);
    assert lines[..|lines| - 1] == h + c + a;
    TerminateAppend(h + c, a);
    TerminateAppend(h, c);
  }

  /** What the corrected PDB reader gives for a file `_save_pdb` wrote: the
      header and remark lines, the six cell values, and per atom its id,
      element and printed coordinates. */
  function ExpectedPdb(system: MolecularSystem, settings: PdbSettings): PdbSystem
    requires PdbWritable(system, settings)
  {
    var ids := system.atomIds.value;
    var n := |ids|;
    PdbSystem(
      Terminate(HeaderLines(settings.remarks)),
      if system.unitCell.Some? then CellTexts(system.unitCell.value) else [],
      ids,
      system.elements[..n],
      seq(n, k requires 0 <= k < n => PdbTokens(system.coordinates[k])))
  }

  /** The written cell block holds cell records that read back as the cell. */
  lemma CellBlockReads(unitCell: Option<seq<Float>>, spaceGroup: Option<string>)
    requires unitCell.Some? ==> CellFits(unitCell.value)
    ensures var tc := Terminate(CrystLines(unitCell, spaceGroup));
      && (forall k :: 0 <= k < |tc| ==> KindOf(tc[k]) == CrystRecord)
      && UnitCell(tc) == if unitCell.Some? then CellTexts(unitCell.value) else []
  {
    var tc := Terminate(CrystLines(unitCell, spaceGroup));
    if unitCell.Some? {
      CrystLineReads(unitCell.value, spaceGroup);
      assert |UnitCell(tc)| == 6;
    }
  }

  /** The written atom block holds atom records that read back as the
      atoms. */
  lemma AtomBlockReads(system: MolecularSystem, settings: PdbSettings)
    requires PdbWritable(system, settings)
    ensures var ta := Terminate(AtomLines(system, settings));
      var ids := system.atomIds.value;
      forall i :: 0 <= i < |ta| ==>
        && KindOf(ta[i]) == AtomRecord
        && AtomName(ta[i]) == ids[i] && AtomElement(ta[i]) == system.elements[i]
        && AtomCoordinates(ta[i]) == PdbTokens(system.coordinates[i])
  {
    var ids := system.atomIds.value;
    var ta := Terminate(AtomLines(system, settings));
    forall i | 0 <= i < |ta|
      ensures KindOf(ta[i]) == AtomRecord
      ensures AtomName(ta[i]) == ids[i] && AtomElement(ta[i]) == system.elements[i]
      ensures AtomCoordinates(ta[i]) == PdbTokens(system.coordinates[i])
    {
      AtomLineReads(i + 1, ids[i], settings, system.coordinates[i], system.elements[i]);
    }
  }

  /** The corrected reader, given remark, cell and atom records followed by
      `END`, returns the remarks, the cell fields and the atoms' fields. */
  lemma ReadOfBlocks(th: seq<string>, tc: seq<string>, ta: seq<string>, cell: seq<string>,
                     ids: seq<string>, elements: seq<string>, coordinates: seq<seq<string>>)
    requires forall k :: 0 <= k < |th| ==> KindOf(th[k]) == RemarkRecord
    requires forall k :: 0 <= k < |tc| ==> KindOf(tc[k]) == CrystRecord
    requires UnitCell(tc) == cell
    requires |ids| == |elements| == |coordinates| == |ta|
    requires forall i :: 0 <= i < |ta| ==>
      && KindOf(ta[i]) == AtomRecord
      && AtomName(ta[i]) == ids[i] && AtomElement(ta[i]) == elements[i]
      && AtomCoordinates(ta[i]) == coordinates[i]
    ensures ReadPdbRecords(th + tc + ta + ["END"]) == Ok(PdbSystem(th, cell, ids, elements, coordinates))
  {
    var read := th + tc + ta + ["END"];
    WrittenRecords(th, tc, ta);
    IdsOfRecords(read, ta, ids);
    ElementsOfRecords(read, ta, elements);
    CoordinatesOfRecords(read, ta, coordinates);
  }

  /** The atom ids the reader extracts from lines whose atom records are
      known. */
  lemma IdsOfRecords(read: seq<string>, ta: seq<string>, ids: seq<string>)
    requires Records(read, AtomRecord) == ta && |ids| == |ta|
    requires forall i :: 0 <= i < |ta| ==> AtomName(ta[i]) == ids[i]
    ensures ExtractPdb(read).atomIds == ids
  {
  }

  /** The elements the reader extracts from lines whose atom records are
      known. */
  lemma ElementsOfRecords(read: seq<string>, ta: seq<string>, elements: seq<string>)
    requires Records(read, AtomRecord) == ta && |elements| == |ta|
    requires forall i :: 0 <= i < |ta| ==> AtomElement(ta[i]) == elements[i]
    ensures ExtractPdb(read).elements == elements
  {
  }

  /** The coordinates the reader extracts from lines whose atom records are
      known. */
  lemma CoordinatesOfRecords(read: seq<string>, ta: seq<string>, coordinates: seq<seq<string>>)
    requires Records(read, AtomRecord) == ta && |coordinates| == |ta|
    requires forall i :: 0 <= i < |ta| ==> AtomCoordinates(ta[i]) == coordinates[i]
    ensures ExtractPdb(read).coordinates == coordinates
  {
  }

  /** The corrected reader, given the written lines, returns the expected
      system. */
  lemma ReadOfWritten(system: MolecularSystem, settings: PdbSettings)
    requires PdbWritable(system, settings)
    ensures var th := Terminate(HeaderLines(settings.remarks));
      var tc := Terminate(CrystLines(system.unitCell, settings.spaceGroup));
      var ta := Terminate(AtomLines(system, settings));
      ReadPdbRecords(th + tc + ta + ["END"]) == Ok(ExpectedPdb(system, settings))
  {
    var th := Terminate(HeaderLines(settings.remarks));
    var tc := Terminate(CrystLines(system.unitCell, settings.spaceGroup));
    var ta := Terminate(AtomLines(system, settings));
    var expected := ExpectedPdb(system, settings);
    HeaderLinesAreRemarks(settings.remarks);
    CellBlockReads(system.unitCell, settings.spaceGroup);
    AtomBlockReads(system, settings);
    ReadOfBlocks(th, tc, ta, expected.unitCell, expected.atomIds, expected.elements, expected.coordinates);
  }

  /** Writing a PDB file and reading it back with the corrected reader gives
      the remarks, the cell and every atom's id, element and coordinates. */
  lemma PdbRoundTrip(system: MolecularSystem, settings: PdbSettings)
    requires PdbWritable(system, settings)
    ensures SavePdb(system, settings).Ok?
    ensures ReadPdbRecords(ReadLines(SavePdb(system, settings).value)) == Ok(ExpectedPdb(system, settings))
  {
    PdbReadsAsLines(system, settings);
    ReadOfWritten(system, settings);
  }

  // ---------------------------------------------------------------------
  // The reader as written against its own writer

  lemma {:induction false} EndMentionsAppend(a: seq<string>, b: seq<string>)
    ensures EndMentions(a + b) == EndMentions(a) + EndMentions(b)
    decreases |a|
  {
    if a == [] {
      assert a + b == b;
    } else {
      assert (a + b)[1..] == a[1..] + b;
      EndMentionsAppend(a[1..], b);
    }
  }

  lemma {:induction false} EndMentionsAtLeast(ls: seq<string>, i: nat)
    requires i < |ls|
    ensures EndMentions(ls) >= Count(ls[i], "END")
    decreases |ls|
  {
    if i > 0 {
      EndMentionsAtLeast(ls[1..], i - 1);
    }
  }

  /** A line that embeds text holding the letters `END` mentions `END`. */
  lemma EmbeddedMentionsEnd(before: string, item: string, after: string, at: nat)
    requires at + 3 <= |item| && item[at..at + 3] == "END"
    ensures Count(before + item + after, "END") >= 1
  {
    var line := before + item + after;
    assert line[|before| + at..|before| + at + 3] == item[at..at + 3];
    CountPositive(line, "END", |before| + at);
  }

  /** A remark holding the letters `END` puts them in the written header. */
  lemma RemarkMentionsEnd(items: seq<string>, k: nat, at: nat)
    requires k < |items|
    requires at + 3 <= |items[k]| && items[k][at..at + 3] == "END"
    ensures EndMentions(Terminate(HeaderLines(RemarkList(items)))) >= 1
  {
    var rs := RemarkLines(RemarkList(items));
    var h := HeaderLines(RemarkList(items));
    var th := Terminate(h);
    assert rs[k] == "REMARK " + items[k];
    assert h[k + 1] == rs[k];
    assert th[k + 1] == "REMARK " + items[k] + "\n";
    EmbeddedMentionsEnd("REMARK ", items[k], "\n", at);
    EndMentionsAtLeast(th, k + 1);
  }

  /** A file whose header mentions `END` mentions it at least twice, the
      closing `END` included. */
  lemma MentionsOfWritten(th: seq<string>, tc: seq<string>, ta: seq<string>)
    requires EndMentions(th) >= 1
    ensures EndMentions(th + tc + ta + ["END"]) >= 2
  {
    EndMentionsAppend(th + tc + ta, ["END"]);
    EndMentionsAppend(th + tc, ta);
    EndMentionsAppend(th, tc);
    assert ["END"][1..] == [];
    CountPositive("END", "END", 0);
  }

  /** A remark holding the letters `END` makes `_read_pdb` as written refuse
      the file `_save_pdb` wrote, which the corrected reader reads back. */
  lemma AsWrittenRejectsEndInRemark(system: MolecularSystem, settings: PdbSettings, k: nat, at: nat)
    requires PdbWritable(system, settings)
    requires settings.remarks.RemarkList? && k < |settings.remarks.items|
    requires at + 3 <= |settings.remarks.items[k]| && settings.remarks.items[k][at..at + 3] == "END"
    ensures SavePdb(system, settings).Ok?
    ensures ReadPdb(ReadLines(SavePdb(system, settings).value)) == Err(CorruptedPdbFile)
    ensures ReadPdbRecords(ReadLines(SavePdb(system, settings).value)) == Ok(ExpectedPdb(system, settings))
  {
    PdbRoundTrip(system, settings);
    PdbReadsAsLines(system, settings);
    RemarkMentionsEnd(settings.remarks.items, k, at);
    MentionsOfWritten(Terminate(HeaderLines(settings.remarks)),
      Terminate(CrystLines(system.unitCell, settings.spaceGroup)), Terminate(AtomLines(system, settings)));
  }

  /** The smallest such file: no atoms, no cell, one remark `END`. */
  lemma EndRemarkCounterexample()
    ensures var system := MolecularSystem(Some([]), [], [], None);
      var settings := DefaultPdbSettings.(remarks := RemarkList(["END"]));
      && SavePdb(system, settings).Ok?
      && ReadPdb(ReadLines(SavePdb(system, settings).value)) == Err(CorruptedPdbFile)
      && ReadPdbRecords(ReadLines(SavePdb(system, settings).value)).Ok?
  {
    var system := MolecularSystem(Some([]), [], [], None);
    var settings := DefaultPdbSettings.(remarks := RemarkList(["END"]));
    assert IntToString(1) == "1";
    assert forall i :: 0 <= i < 3 ==> "   "[i] == ' ';
    assert PdbWritable(system, settings);
    AsWrittenRejectsEndInRemark(system, settings, 0, 0);
  }

  // ---------------------------------------------------------------------
  // dump2file, then load_file

  /** A path stem `os.path.splitext` leaves whole when a suffix is added. */
  predicate PlainStem(stem: string)
  {
    stem != [] && stem[|stem| - 1] != '.' && stem[|stem| - 1] != '/'
  }

  /** A system `dump2file` writes to `stem.xyz` loads back through
      `load_file` to its elements and coordinate tokens. */
  lemma DumpThenLoadXyz(system: MolecularSystem, stem: string, override: bool, existing: set<string>, settings: SaveSettings)
    requires PlainStem(stem)
    requires override || stem + ".xyz" !in existing
    requires XyzWritable(system, settings.remark)
    ensures var r := Dump2File(system, stem + ".xyz", override, existing, settings);
      var n := Min(|system.elements|, |system.coordinates|);
      && r.Ok?
      && LoadFile(r.value.path, r.value.text)
         == Ok(XyzLoaded(XyzSystem(
              settings.remark + "\n",
              system.elements[..n],
              PrintedTokens(system.coordinates, n))))
  {
    var path := stem + ".xyz";
    assert ".xyz"[1..] == "xyz";
    ExtensionOfStem(stem, ".xyz");
    assert Tail(path, 3) == path[|path| - 3..] == "xyz";
    XyzRoundTrip(system, settings.remark);
  }

  /** A system `dump2file` writes to `stem.pdb` loads back through the
      corrected `load_file`; `load_file` as written loads the same unless
      the text mentions `END` more than once. */
  lemma DumpThenLoadPdb(system: MolecularSystem, stem: string, override: bool, existing: set<string>, settings: SaveSettings)
    requires PlainStem(stem)
    requires override || stem + ".pdb" !in existing
    requires PdbWritable(system, settings.pdb)
    ensures var r := Dump2File(system, stem + ".pdb", override, existing, settings);
      && r.Ok?
      && LoadFileCorrected(r.value.path, r.value.text) == Ok(PdbLoaded(ExpectedPdb(system, settings.pdb)))
      && (LoadFile(r.value.path, r.value.text).Ok? <==> EndMentions(ReadLines(r.value.text)) <= 1)
  {
    PdbRoundTrip(system, settings.pdb);
    DumpedPdb(system, stem, override, existing, settings);
    var path := stem + ".pdb";
    var text := SavePdb(system, settings.pdb).value;
    var read := ReadPdbRecords(ReadLines(text));
    assert read == Ok(ExpectedPdb(system, settings.pdb));
    assert LoadFileCorrected(path, text) == AsLoaded(read, s => PdbLoaded(s));
  }

  /** `dump2file` writes the PDB text to `stem.pdb`, whose extension
      `load_file` reads as `.pdb`. */
  lemma DumpedPdb(system: MolecularSystem, stem: string, override: bool, existing: set<string>, settings: SaveSettings)
    requires PlainStem(stem)
    requires override || stem + ".pdb" !in existing
    requires SavePdb(system, settings.pdb).Ok?
    ensures Extension(stem + ".pdb") == ".pdb"
    ensures Dump2File(system, stem + ".pdb", override, existing, settings)
      == Ok(Written(stem + ".pdb", SavePdb(system, settings.pdb).value))
  {
    var path := stem + ".pdb";
    assert ".pdb"[1..] == "pdb";
    ExtensionOfStem(stem, ".pdb");
    assert Tail(path, 3) == path[|path| - 3..] == "pdb";
  }

  /** With a remark holding the letters `END`, `load_file` refuses the file
      `dump2file` wrote, which the corrected `load_file` loads. */
  lemma LoadFileRejectsEndRemark(system: MolecularSystem, stem: string, settings: SaveSettings, k: nat, at: nat)
    requires PlainStem(stem)
    requires PdbWritable(system, settings.pdb)
    requires settings.pdb.remarks.RemarkList? && k < |settings.pdb.remarks.items|
    requires at + 3 <= |settings.pdb.remarks.items[k]| && settings.pdb.remarks.items[k][at..at + 3] == "END"
    ensures var r := Dump2File(system, stem + ".pdb", true, {}, settings);
      && r.Ok?
      && LoadFile(r.value.path, r.value.text) == Err(CorruptedPdbFile)
      && LoadFileCorrected(r.value.path, r.value.text).Ok?
  {
    AsWrittenRejectsEndInRemark(system, settings.pdb, k, at);
    DumpedPdb(system, stem, true, {}, settings);
    var path := stem + ".pdb";
    var text := SavePdb(system, settings.pdb).value;
    var lines := ReadLines(text);
    assert LoadFile(path, text) == AsLoaded(ReadPdb(lines), s => PdbLoaded(s));
    assert ReadPdbRecords(lines).Ok?;
  }
}
