/**
 pyWINDOW's `Input` readers over the lines `readlines()` returns: the XYZ,
 PDB and MOL readers and the dispatch on the file extension. Numbers stay
 the strings `float` would parse.
 */
module PyWindowInput {
  import opened Results
  import opened PyText
  import opened PyWindowErrors

  // ---------------------------------------------------------------------
  // XYZ

  /** What `_read_xyz` extracts. `fileRemarks` is the second line, which the
      reader keeps on itself rather than in the returned dictionary; each
      coordinate row holds the three tokens given to `float`. */
  datatype XyzSystem = XyzSystem(
    fileRemarks: string,
    elements: seq<string>,
    coordinates: seq<seq<string>>)

  /** A line from the third on that `_read_xyz` can take apart: an element
      token and three coordinate tokens, and maybe more. */
  predicate IsXyzAtomLine(line: string)
  {
    |Split(line)| >= 4
  }

  /** `_read_xyz`: every `IndexError` (fewer than two lines, or an atom line
      with fewer than four tokens) becomes `_CorruptedXYZFile`. */
  function ReadXyz(lines: seq<string>): (r: Result<XyzSystem, IoError>)
    ensures r.Ok? <==> |lines| >= 2 && forall k :: 2 <= k < |lines| ==> IsXyzAtomLine(lines[k])
    ensures r.Err? ==> r.error == CorruptedXyzFile
    ensures r.Ok? ==>
      && r.value.fileRemarks == lines[1]
      && |r.value.elements| == |r.value.coordinates| == |lines| - 2
      && forall k :: 2 <= k < |lines| ==>
           Split(lines[k]) == [r.value.elements[k - 2]] + r.value.coordinates[k - 2] + Split(lines[k])[4..]
  {
    if |lines| < 2 || exists k :: 2 <= k < |lines| && !IsXyzAtomLine(lines[k]) then
      Err(CorruptedXyzFile)
    else
      var n := |lines| - 2;
      var elements := seq(n, k requires 0 <= k < n => Split(lines[k + 2])[0]);
      var coordinates := seq(n, k requires 0 <= k < n => Split(lines[k + 2])[1..4]);
      assert forall k :: 2 <= k < |lines| ==>
        Split(lines[k]) == [elements[k - 2]] + coordinates[k - 2] + Split(lines[k])[4..] by {
        forall k | 2 <= k < |lines|
          ensures Split(lines[k]) == [elements[k - 2]] + coordinates[k - 2] + Split(lines[k])[4..]
        {
          var ws := Split(lines[k]);
          assert ws == [ws[0]] + ws[1..4] + ws[4..];
        }
      }
      Ok(XyzSystem(lines[1], elements, coordinates))
  }

  // ---------------------------------------------------------------------
  // PDB

  /** The record a PDB line holds, judged by its first six characters as
      `_read_pdb` does; the prefixes exclude one another. */
  datatype RecordKind = RemarkRecord | CrystRecord | AtomRecord | OtherRecord

  function KindOf(line: string): RecordKind
  {
    var tag := Prefix(line, 6);
    if tag == "REMARK" then RemarkRecord
    else if tag == "CRYST1" then CrystRecord
    else if tag == "HETATM" || tag == "ATOM  " then AtomRecord
    else OtherRecord
  }

  /** The lines `keep` accepts, in order. */
  function Filter(lines: seq<string>, keep: string -> bool): (r: seq<string>)
    ensures |r| <= |lines|
    decreases |lines|
  {
    if lines == [] then []
    else (if keep(lines[0]) then [lines[0]] else []) + Filter(lines[1..], keep)
  }

  /** Filtering distributes over concatenation. */
  lemma {:induction false} FilterAppend(a: seq<string>, b: seq<string>, keep: string -> bool)
    ensures Filter(a + b, keep) == Filter(a, keep) + Filter(b, keep)
    decreases |a|
  {
    if a == [] {
      assert a + b == b;
    } else {
      assert (a + b)[0] == a[0];
      assert (a + b)[1..] == a[1..] + b;
      FilterAppend(a[1..], b, keep);
      var head := if keep(a[0]) then [a[0]] else [];
      assert Filter(a + b, keep) == head + Filter(a[1..] + b, keep);
      assert Filter(a, keep) == head + Filter(a[1..], keep);
    }
  }

  /** A line is kept exactly when it is one of the lines and passes `keep`. */
  lemma {:induction false} FilterMembers(lines: seq<string>, keep: string -> bool)
    ensures forall l :: l in Filter(lines, keep) <==> l in lines && keep(l)
    decreases |lines|
  {
    if lines != [] {
      FilterMembers(lines[1..], keep);
      assert lines == [lines[0]] + lines[1..];
    }
  }

  /** The test for lines of one kind. */
  function IsKind(kind: RecordKind): string -> bool
  {
    line => KindOf(line) == kind
  }

  /** The lines of one kind, in file order. */
  function Records(lines: seq<string>, kind: RecordKind): seq<string>
  {
    Filter(lines, IsKind(kind))
  }

  /** The records of a kind are the lines of that kind and no others. */
  lemma RecordsMembers(lines: seq<string>, kind: RecordKind)
    ensures forall l :: l in Records(lines, kind) <==> l in lines && KindOf(l) == kind
  {
    FilterMembers(lines, IsKind(kind));
  }

  /** The six unit-cell fields of a `CRYST1` line, at the columns the reader
      slices: three lengths of nine characters, three angles of seven. */
  function CellFields(line: string): (r: seq<string>)
    ensures |r| == 6
  {
    [Slice(line, 6, 15), Slice(line, 15, 24), Slice(line, 24, 33),
     Slice(line, 33, 40), Slice(line, 40, 47), Slice(line, 47, 54)]
  }

  /** The cell fields of every given line, one line after another. */
  function UnitCell(lines: seq<string>): (r: seq<string>)
    ensures |r| == 6 * |lines|
    ensures forall k, j :: 0 <= k < |lines| && 0 <= j < 6 ==> r[6 * k + j] == CellFields(lines[k])[j]
    decreases |lines|
  {
    if lines == [] then []
    else
      var rest := UnitCell(lines[1..]);
      var r := CellFields(lines[0]) + rest;
      forall k, j | 1 <= k < |lines| && 0 <= j < 6
        ensures r[6 * k + j] == CellFields(lines[k])[j]
      {
        assert r[6 * k + j] == rest[6 * (k - 1) + j];
        assert lines[1..][k - 1] == lines[k];
      }
      r
  }

  /** Columns 13-16 of an atom line, stripped. */
  function AtomName(line: string): string
  {
    Strip(Slice(line, 12, 16))
  }

  /** Columns 77-78 of an atom line, stripped. */
  function AtomElement(line: string): string
  {
    Strip(Slice(line, 76, 78))
  }

  /** Columns 31-38, 39-46 and 47-54 of an atom line. */
  function AtomCoordinates(line: string): (r: seq<string>)
    ensures |r| == 3
  {
    [Slice(line, 30, 38), Slice(line, 38, 46), Slice(line, 46, 54)]
  }

  /** What `_read_pdb` extracts: remark lines whole, the unit-cell fields of
      every `CRYST1` line, and name, element and coordinate fields of every
      `ATOM`/`HETATM` line. */
  datatype PdbSystem = PdbSystem(
    remarks: seq<string>,
    unitCell: seq<string>,
    atomIds: seq<string>,
    elements: seq<string>,
    coordinates: seq<seq<string>>)

  function ExtractPdb(lines: seq<string>): (r: PdbSystem)
    ensures |r.atomIds| == |r.elements| == |r.coordinates| == |Records(lines, AtomRecord)|
  {
    var atoms := Records(lines, AtomRecord);
    PdbSystem(
      Records(lines, RemarkRecord),
      UnitCell(Records(lines, CrystRecord)),
      seq(|atoms|, k requires 0 <= k < |atoms| => AtomName(atoms[k])),
      seq(|atoms|, k requires 0 <= k < |atoms| => AtomElement(atoms[k])),
      seq(|atoms|, k requires 0 <= k < |atoms| => AtomCoordinates(atoms[k])))
  }

  /** `sum(line.count('END') for line in lines)`: every occurrence of the
      letters `END`, wherever they stand. */
  function EndMentions(lines: seq<string>): nat
    decreases |lines|
  {
    if lines == [] then 0 else Count(lines[0], "END") + EndMentions(lines[1..])
  }

  /** The lines whose record name starts with `END`: `END` itself and the
      `ENDMDL` that closes each model of a trajectory. */
  function EndRecords(lines: seq<string>): (n: nat)
    ensures n <= |lines|
    decreases |lines|
  {
    if lines == [] then 0
    else (if Prefix(lines[0], 3) == "END" then 1 else 0) + EndRecords(lines[1..])
  }

  /** `_read_pdb` as written: more than one `END` anywhere in the text, a
      remark or an atom name included, rejects the file. */
  function ReadPdb(lines: seq<string>): (r: Result<PdbSystem, IoError>)
    ensures r.Err? <==> EndMentions(lines) > 1
    ensures r.Err? ==> r.error == CorruptedPdbFile
    ensures r.Ok? ==> r.value == ExtractPdb(lines)
  {
    if EndMentions(lines) > 1 then Err(CorruptedPdbFile) else Ok(ExtractPdb(lines))
  }

  /** `_read_pdb` with the check it evidently intends: more than one record
      starting with `END` (a trajectory) rejects the file. */
  function ReadPdbRecords(lines: seq<string>): (r: Result<PdbSystem, IoError>)
    ensures r.Err? <==> EndRecords(lines) > 1
    ensures r.Err? ==> r.error == CorruptedPdbFile
    ensures r.Ok? ==> r.value == ExtractPdb(lines)
  {
    if EndRecords(lines) > 1 then Err(CorruptedPdbFile) else Ok(ExtractPdb(lines))
  }

  /** Each `END` record mentions `END` at least once. */
  lemma {:induction false} EndRecordsAtMostMentions(lines: seq<string>)
    ensures EndRecords(lines) <= EndMentions(lines)
    decreases |lines|
  {
    if lines != [] {
      if Prefix(lines[0], 3) == "END" {
        assert lines[0][0..3] == "END";
        CountPositive(lines[0], "END", 0);
      }
      EndRecordsAtMostMentions(lines[1..]);
    }
  }

  /** The corrected reader accepts every file the reader as written accepts,
      and reads it the same way; it rejects only trajectories. */
  lemma CorrectedReaderAgrees(lines: seq<string>)
    ensures ReadPdb(lines).Ok? ==> ReadPdbRecords(lines) == ReadPdb(lines)
    ensures ReadPdbRecords(lines).Err? ==> ReadPdb(lines).Err?
  {
    EndRecordsAtMostMentions(lines);
  }

  // ---------------------------------------------------------------------
  // MOL

  /** What `_read_mol` extracts; `remarks` is present when the third line is
      not an empty line. */
  datatype MolSystem = MolSystem(
    remarks: Option<string>,
    elements: seq<string>,
    coordinates: seq<seq<string>>)

  /** `M  V30 BEGIN ATOM` in tokens: the third is `BEGIN`, the fourth `ATOM`. */
  predicate Opens(line: seq<string>)
  {
    |line| > 3 && line[2] == "BEGIN" && line[3] == "ATOM"
  }

  /** `M  V30 END ATOM`. */
  predicate Closes(line: seq<string>)
  {
    |line| > 3 && line[2] == "END" && line[3] == "ATOM"
  }

  /** Line `j` lies after an opening line with no closing line in between. */
  predicate InBlock(body: seq<seq<string>>, j: nat)
    requires j <= |body|
  {
    exists b :: 0 <= b < j && Opens(body[b]) && forall k :: b < k < j ==> !Closes(body[k])
  }

  /** A line inside the atom block that is not its closing line: an atom. */
  predicate Collected(body: seq<seq<string>>, j: nat)
    requires j < |body|
  {
    |body[j]| > 3 && !Closes(body[j]) && InBlock(body, j)
  }

  /** A three-token line on which the loop reads a fourth token: its third is
      `END` or `BEGIN`, or it lies inside the atom block. */
  predicate Faulty(body: seq<seq<string>>, j: nat)
    requires j < |body|
  {
    |body[j]| == 3 && (body[j][2] == "END" || body[j][2] == "BEGIN" || InBlock(body, j))
  }

  /** The loop's flag after line `j` is the reference `InBlock(body, j + 1)`. */
  lemma InBlockStep(body: seq<seq<string>>, j: nat)
    requires j < |body|
    ensures InBlock(body, j + 1) <==> Opens(body[j]) || (InBlock(body, j) && !Closes(body[j]))
  {
    if InBlock(body, j + 1) {
      var b :| 0 <= b < j + 1 && Opens(body[b]) && forall k :: b < k < j + 1 ==> !Closes(body[k]);
      if b < j {
        assert InBlock(body, j);
      }
    }
    if Opens(body[j]) {
      assert InBlock(body, j + 1);
    } else if InBlock(body, j) && !Closes(body[j]) {
      var b :| 0 <= b < j && Opens(body[b]) && forall k :: b < k < j ==> !Closes(body[k]);
      assert forall k :: b < k < j + 1 ==> !Closes(body[k]);
    }
  }

  /** The indices of the atom lines from `i` on, in file order. */
  function AtomRows(body: seq<seq<string>>, i: nat): (rows: seq<nat>)
    requires i <= |body|
    ensures forall k :: 0 <= k < |rows| ==> i <= rows[k] < |body| && Collected(body, rows[k])
    ensures forall j :: i <= j < |body| && Collected(body, j) ==> j in rows
    ensures forall k, m :: 0 <= k < m < |rows| ==> rows[k] < rows[m]
    decreases |body| - i
  {
    if i == |body| then []
    else
      var rest := AtomRows(body, i + 1);
      if Collected(body, i) then
        var rows := [i] + rest;
        assert forall k :: 0 < k < |rows| ==> rows[k] == rest[k - 1];
        rows
      else rest
  }

  /** The fourth token of each atom line, and the tokens `line[4:7]`. */
  function AtomFields(body: seq<seq<string>>, rows: seq<nat>): (r: (seq<string>, seq<seq<string>>))
    requires forall k :: 0 <= k < |rows| ==> rows[k] < |body| && |body[rows[k]]| > 3
    ensures |r.0| == |r.1| == |rows|
    ensures forall k :: 0 <= k < |rows| ==>
      r.0[k] == body[rows[k]][3] && r.1[k] == body[rows[k]][4..Min(7, |body[rows[k]]|)]
    decreases |rows|
  {
    if rows == [] then ([], [])
    else
      var line := body[rows[0]];
      var rest := AtomFields(body, rows[1..]);
      ([line[3]] + rest.0, [line[4..Min(7, |line|)]] + rest.1)
  }

  /** The loop of `_read_mol` from line `i`, with `atomData` the flag it
      carries: a line of more than two tokens first clears the flag on a
      closing line, is collected while the flag is set, then sets it on an
      opening line. Reading a missing fourth token raises `IndexError`. */
  function MolScan(body: seq<seq<string>>, i: nat, atomData: bool): Result<(seq<string>, seq<seq<string>>), IoError>
    requires i <= |body|
    decreases |body| - i
  {
    if i == |body| then Ok(([], []))
    else
      var line := body[i];
      if |line| <= 2 then MolScan(body, i + 1, atomData)
      else if |line| == 3 && (line[2] == "END" || atomData || line[2] == "BEGIN") then Err(IndexError)
      else
        var collect := !Closes(line) && atomData;
        var rest := MolScan(body, i + 1, Opens(line) || collect);
        if rest.Err? then rest
        else if collect then Ok(([line[3]] + rest.value.0, [line[4..Min(7, |line|)]] + rest.value.1))
        else rest
  }

  /** The loop, started with the flag the reference gives, fails exactly on
      a faulty line. */
  lemma {:induction false} MolScanFails(body: seq<seq<string>>, i: nat, j: nat)
    requires i <= j < |body| && Faulty(body, j)
    ensures MolScan(body, i, InBlock(body, i)) == Err(IndexError)
    decreases |body| - i
  {
    if !Faulty(body, i) {
      InBlockStep(body, i);
      MolScanFails(body, i + 1, j);
    }
  }

  /** One step of the loop on a line that is not faulty, with the flag the
      reference gives on both sides: the line is collected exactly when the
      reference says it is an atom line. */
  lemma MolScanStep(body: seq<seq<string>>, i: nat)
    requires i < |body| && !Faulty(body, i)
    ensures var rest := MolScan(body, i + 1, InBlock(body, i + 1));
      var line := body[i];
      MolScan(body, i, InBlock(body, i))
        == if rest.Err? || !Collected(body, i) then rest
           else Ok(([line[3]] + rest.value.0, [line[4..Min(7, |line|)]] + rest.value.1))
  {
    InBlockStep(body, i);
  }

  /** The fields of an atom line followed by those of later atom lines. */
  lemma AtomFieldsCons(body: seq<seq<string>>, i: nat, later: seq<nat>)
    requires i < |body| && |body[i]| > 3
    requires forall k :: 0 <= k < |later| ==> later[k] < |body| && |body[later[k]]| > 3
    ensures var rest := AtomFields(body, later);
      var line := body[i];
      AtomFields(body, [i] + later) == ([line[3]] + rest.0, [line[4..Min(7, |line|)]] + rest.1)
  {
    assert ([i] + later)[1..] == later;
  }

  /** Without a faulty line, the loop started with the flag the reference
      gives collects exactly the atom lines. */
  lemma {:induction false} MolScanCollects(body: seq<seq<string>>, i: nat)
    requires i <= |body|
    requires forall j :: i <= j < |body| ==> !Faulty(body, j)
    ensures MolScan(body, i, InBlock(body, i)) == Ok(AtomFields(body, AtomRows(body, i)))
    decreases |body| - i
  {
    if i < |body| {
      MolScanStep(body, i);
      MolScanCollects(body, i + 1);
      if Collected(body, i) {
        AtomFieldsCons(body, i, AtomRows(body, i + 1));
      }
    }
  }

  /** The whole loop, which starts with the flag cleared. */
  lemma MolScanFromStart(body: seq<seq<string>>)
    ensures (exists j :: 0 <= j < |body| && Faulty(body, j)) ==> MolScan(body, 0, false) == Err(IndexError)
    ensures (forall j :: 0 <= j < |body| ==> !Faulty(body, j)) ==>
      MolScan(body, 0, false) == Ok(AtomFields(body, AtomRows(body, 0)))
  {
    assert !InBlock(body, 0);
    if j :| 0 <= j < |body| && Faulty(body, j) {
      MolScanFails(body, 0, j);
    } else {
      MolScanCollects(body, 0);
    }
  }

  /** `_read_mol`: the remark test on the third line raises `IndexError` for
      shorter files; then the token lines are scanned for the atom block. */
  function ReadMol(lines: seq<string>): (r: Result<MolSystem, IoError>)
    ensures
      var body := seq(|lines|, k requires 0 <= k < |lines| => Split(lines[k]));
      && (r.Ok? <==> |lines| >= 3 && forall j :: 0 <= j < |lines| ==> !Faulty(body, j))
      && (r.Err? ==> r.error == IndexError)
      && (r.Ok? ==>
            && r.value.remarks == (if lines[2] != "\n" then Some(lines[2]) else None)
            && (r.value.elements, r.value.coordinates) == AtomFields(body, AtomRows(body, 0)))
  {
    if |lines| < 3 then Err(IndexError)
    else
      var remarks := if lines[2] != "\n" then Some(lines[2]) else None;
      var body := seq(|lines|, k requires 0 <= k < |lines| => Split(lines[k]));
      MolScanFromStart(body);
      var scanned :- MolScan(body, 0, false);
      Ok(MolSystem(remarks, scanned.0, scanned.1))
  }

  // ---------------------------------------------------------------------
  // Dispatch

  /** The dictionary `load_file` returns, by the reader that made it. */
  datatype Loaded = XyzLoaded(xyz: XyzSystem) | PdbLoaded(pdb: PdbSystem) | MolLoaded(mol: MolSystem)

  /** The reader for a result of that reader. */
  function AsLoaded<T>(r: Result<T, IoError>, wrap: T -> Loaded): (l: Result<Loaded, IoError>)
    ensures l.Ok? <==> r.Ok?
    ensures l.Err? ==> l.error == r.error
    ensures l.Ok? ==> l.value == wrap(r.value)
  {
    match r
    case Ok(v) => Ok(wrap(v))
    case Err(e) => Err(e)
  }

  /** `Input.load_file(path)` on a file whose text is `content`: the lines
      are read, then the reader is looked up by the extension; one that is
      not `.xyz`, `.pdb` or `.mol` raises `KeyError`. A PDB file goes to the
      reader as written. */
  function LoadFile(path: string, content: string): (r: Result<Loaded, IoError>)
    ensures
      var ext := Extension(path);
      var lines := ReadLines(content);
      && (ext !in {".xyz", ".pdb", ".mol"} <==> r == Err(KeyError(ext)))
      && (ext == ".xyz" ==> r == AsLoaded(ReadXyz(lines), s => XyzLoaded(s)))
      && (ext == ".pdb" ==> r == AsLoaded(ReadPdb(lines), s => PdbLoaded(s)))
      && (ext == ".mol" ==> r == AsLoaded(ReadMol(lines), s => MolLoaded(s)))
  {
    var ext := Extension(path);
    var lines := ReadLines(content);
    if ext == ".xyz" then AsLoaded(ReadXyz(lines), s => XyzLoaded(s))
    else if ext == ".pdb" then AsLoaded(ReadPdb(lines), s => PdbLoaded(s))
    else if ext == ".mol" then AsLoaded(ReadMol(lines), s => MolLoaded(s))
    else Err(KeyError(ext))
  }

  /** `load_file` with the corrected PDB reader. It loads every file
      `load_file` loads, to the same dictionary, and it fails only where
      `load_file` fails or the file holds more than one `END` record. */
  function LoadFileCorrected(path: string, content: string): (r: Result<Loaded, IoError>)
    ensures Extension(path) == ".pdb" ==> r == AsLoaded(ReadPdbRecords(ReadLines(content)), s => PdbLoaded(s))
    ensures LoadFile(path, content).Ok? ==> r == LoadFile(path, content)
    ensures r.Err? ==> LoadFile(path, content).Err?
    ensures r != LoadFile(path, content) ==>
      Extension(path) == ".pdb" && EndRecords(ReadLines(content)) <= 1 < EndMentions(ReadLines(content))
  {
    var lines := ReadLines(content);
    if Extension(path) == ".pdb" then
      CorrectedReaderAgrees(lines);
      AsLoaded(ReadPdbRecords(lines), s => PdbLoaded(s))
    else LoadFile(path, content)
  }
}
