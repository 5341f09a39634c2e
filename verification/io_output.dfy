/**
 pyWINDOW's `Output` writers: the JSON and molecular-file dumps with their
 existence and file-type checks, and the text the XYZ and PDB writers
 produce. The file system is the set of paths that already exist; a
 successful dump returns the path and the text it writes there.
 */
module PyWindowOutput {
  import opened Results
  import opened PyText
  import opened PyWindowErrors

  /** A floating-point number, held as the text each format the writers use
      gives for it: `.2f`, `7.2f`, `8.3f` and `9.3f`. */
  datatype Float = Float(fixed2: string, fixed7_2: string, fixed8_3: string, fixed9_3: string)

  datatype Coordinate = Coordinate(x: Float, y: Float, z: Float)

  /** A molecular-system dictionary under the default keys. `atomIds` is
      absent from systems that were not read from a PDB file; `unitCell` is
      `None` both when the key is missing and when it holds `None`. */
  datatype MolecularSystem = MolecularSystem(
    atomIds: Option<seq<string>>,
    elements: seq<string>,
    coordinates: seq<Coordinate>,
    unitCell: Option<seq<Float>>)

  /** A file the dump writes: where, and what. */
  datatype Written = Written(path: string, text: string)

  // ---------------------------------------------------------------------
  // dump2json

  /** The path `dump2json` writes to: unchanged when its last four
      characters are `json`, otherwise with `.json` appended. */
  function JsonPath(path: string): (r: string)
    ensures Tail(path, 4) == "json" <==> r == path
    ensures Tail(path, 4) != "json" ==> r == path + ".json"
    ensures Tail(r, 4) == "json"
  {
    if Tail(path, 4) == "json" then path
    else
      var r := path + "." + "json";
      assert r[|r| - 4..] == "json";
      r
  }

  /** A second pass adds nothing. */
  lemma JsonPathIdempotent(path: string)
    ensures JsonPath(JsonPath(path)) == JsonPath(path)
  {
  }

  /** `dump2json(obj, path, override)`: a non-dictionary is refused first;
      then, unless `override` is set, an existing target is refused. The
      JSON text itself is not modelled, so the result is the target path. */
  function Dump2Json(isDictionary: bool, path: string, override: bool, existing: set<string>): (r: Result<string, IoError>)
    ensures !isDictionary ==> r == Err(NotADictionary)
    ensures isDictionary ==> (r.Ok? <==> override || JsonPath(path) !in existing)
    ensures isDictionary && r.Err? ==> r.error == FileAlreadyExists(JsonPath(path))
    ensures r.Ok? ==> r.value == JsonPath(path)
  {
    if !isDictionary then Err(NotADictionary)
    else
      var target := JsonPath(path);
      if !override && target in existing then Err(FileAlreadyExists(target))
      else Ok(target)
  }

  // ---------------------------------------------------------------------
  // _save_xyz

  /** `'{0} {1:.2f} {2:.2f} {3:.2f}'` for one atom. */
  function XyzAtomLine(element: string, c: Coordinate): string
  {
    Join(" ", [element, c.x.fixed2, c.y.fixed2, c.z.fixed2])
  }

  /** The lines `_save_xyz` writes, each later followed by a line feed: the
      number of elements, the remark, and one line per pair that `zip`
      forms, so the shorter of elements and coordinates decides. */
  function XyzLines(elements: seq<string>, coordinates: seq<Coordinate>, remark: string): (r: seq<string>)
    ensures |r| == 2 + Min(|elements|, |coordinates|)
    ensures r[0] == NatToString(|elements|) && r[1] == remark
    ensures forall k :: 2 <= k < |r| ==> r[k] == XyzAtomLine(elements[k - 2], coordinates[k - 2])
  {
    var n := Min(|elements|, |coordinates|);
    [NatToString(|elements|), remark]
      + seq(n, k requires 0 <= k < n => XyzAtomLine(elements[k], coordinates[k]))
  }

  /** The text `_save_xyz` writes; `remark` defaults to a single space. */
  function SaveXyz(system: MolecularSystem, remark: string): string
  {
    Concat(Terminate(XyzLines(system.elements, system.coordinates, remark)))
  }

  // ---------------------------------------------------------------------
  // _save_pdb

  /** The `remarks` setting: a list or tuple gives one line per item, a
      single string or number one line, anything else (the default `None`)
      none. */
  datatype Remarks = NoRemarks | RemarkList(items: seq<string>) | SingleRemark(text: string)

  datatype PdbSettings = PdbSettings(
    remarks: Remarks,
    spaceGroup: Option<string>,
    resName: string,
    chainId: string,
    resSeq: int)

  const DefaultPdbSettings := PdbSettings(NoRemarks, None, "   ", "A", 1)

  const PdbHeader := "REMARK File generated using pyWINDOW."

  function RemarkLines(remarks: Remarks): (r: seq<string>)
    ensures forall k :: 0 <= k < |r| ==> |r[k]| >= 7 && r[k][..7] == "REMARK "
    ensures remarks.NoRemarks? ==> r == []
    ensures remarks.SingleRemark? ==> r == ["REMARK " + remarks.text]
    ensures remarks.RemarkList? ==> (|r| == |remarks.items|
      && forall k :: 0 <= k < |r| ==> r[k][7..] == remarks.items[k])
  {
    match remarks
    case NoRemarks => []
    case SingleRemark(text) => ["REMARK " + text]
    case RemarkList(items) => seq(|items|, k requires 0 <= k < |items| => "REMARK " + items[k])
  }

  /** The `CRYST1` line: the first three cell values as `9.3f`, the rest as
      `7.2f`, then the space group, `P1` unless one is given. */
  function CrystLine(cell: seq<Float>, spaceGroup: Option<string>): string
  {
    var lengths := cell[..Min(3, |cell|)];
    var angles := cell[Min(3, |cell|)..];
    "CRYST1"
      + Concat(seq(|lengths|, k requires 0 <= k < |lengths| => lengths[k].fixed9_3))
      + Concat(seq(|angles|, k requires 0 <= k < |angles| => angles[k].fixed7_2))
      + " " + spaceGroup.GetOr("P1")
  }

  /** The first twelve columns of an atom line: record name, serial `5d`, a
      space. */
  function AtomLineLead(serial: nat): string
  {
    "ATOM  " + RJust(NatToString(serial), 5) + " "
  }

  /** The atom name centred in four columns. */
  function AtomNameField(name: string): string
  {
    LJust(Center(name, 4), 4)
  }

  /** Columns 17 to 30: residue name, chain, residue number, four spaces. */
  function ResidueFields(settings: PdbSettings): string
  {
    " " + LJust(settings.resName, 3) + " " + settings.chainId + RJust(IntToString(settings.resSeq), 4) + "    "
  }

  /** The three coordinates as `8.3f`. */
  function CoordinateFields(c: Coordinate): string
  {
    c.x.fixed8_3 + c.y.fixed8_3 + c.z.fixed8_3
  }

  /** `" ".center(22)` followed by the element right-justified in two columns
      and two spaces. */
  function ElementField(element: string): string
  {
    Spaces(22) + LJust(RJust(element, 2), 2) + "  "
  }

  /** The `ATOM` line of the atom with 1-based number `serial`. */
  function AtomLine(serial: nat, name: string, settings: PdbSettings, c: Coordinate, element: string): string
  {
    AtomLineLead(serial) + AtomNameField(name) + ResidueFields(settings) + CoordinateFields(c) + ElementField(element)
  }

  /** The header line and the remark lines. */
  function HeaderLines(remarks: Remarks): (r: seq<string>)
    ensures |r| >= 1 && r[0] == PdbHeader
    ensures r[1..] == RemarkLines(remarks)
  {
    [PdbHeader] + RemarkLines(remarks)
  }

  /** The `CRYST1` line when the system has a cell, else nothing. */
  function CrystLines(unitCell: Option<seq<Float>>, spaceGroup: Option<string>): (r: seq<string>)
    ensures |r| <= 1
    ensures unitCell.None? <==> r == []
    ensures unitCell.Some? ==> r == [CrystLine(unitCell.value, spaceGroup)]
  {
    match unitCell
    case None => []
    case Some(cell) => [CrystLine(cell, spaceGroup)]
  }

  /** One `ATOM` line per atom id, numbered from 1. */
  function AtomLines(system: MolecularSystem, settings: PdbSettings): (r: seq<string>)
    requires system.atomIds.Some?
    requires |system.elements| >= |system.atomIds.value| && |system.coordinates| >= |system.atomIds.value|
    ensures |r| == |system.atomIds.value|
    ensures forall i :: 0 <= i < |r| ==>
      r[i] == AtomLine(i + 1, system.atomIds.value[i], settings, system.coordinates[i], system.elements[i])
  {
    var ids := system.atomIds.value;
    seq(|ids|, i requires 0 <= i < |ids| => AtomLine(i + 1, ids[i], settings, system.coordinates[i], system.elements[i]))
  }

  /** The lines `_save_pdb` joins with line feeds: the header, the remarks,
      the `CRYST1` line when there is a cell, one `ATOM` line per atom id,
      and `END`. */
  function PdbLines(system: MolecularSystem, settings: PdbSettings): (r: seq<string>)
    requires system.atomIds.Some?
    requires |system.elements| >= |system.atomIds.value| && |system.coordinates| >= |system.atomIds.value|
    ensures |r| == |RemarkLines(settings.remarks)| + |CrystLines(system.unitCell, settings.spaceGroup)| + |system.atomIds.value| + 2
    ensures r[0] == PdbHeader && r[|r| - 1] == "END"
  {
    HeaderLines(settings.remarks) + CrystLines(system.unitCell, settings.spaceGroup)
      + AtomLines(system, settings) + ["END"]
  }

  /** The text `_save_pdb` writes. A system without atom ids raises
      `KeyError`; fewer elements or coordinates than atom ids raise
      `IndexError`. */
  function SavePdb(system: MolecularSystem, settings: PdbSettings): (r: Result<string, IoError>)
    ensures system.atomIds.None? <==> r == Err(KeyError("atom_ids"))
    ensures r.Ok? <==>
      system.atomIds.Some? && |system.elements| >= |system.atomIds.value|
      && |system.coordinates| >= |system.atomIds.value|
    ensures r.Err? ==> r.error == KeyError("atom_ids") || r.error == IndexError
  {
    match system.atomIds
    case None => Err(KeyError("atom_ids"))
    case Some(ids) =>
      if |system.elements| < |ids| || |system.coordinates| < |ids| then Err(IndexError)
      else Ok(Join("\n", PdbLines(system, settings)))
  }

  // ---------------------------------------------------------------------
  // dump2file

  /** The keyword settings the two writers read: `remark` for XYZ, the rest
      for PDB. */
  datatype SaveSettings = SaveSettings(remark: string, pdb: PdbSettings)

  const DefaultSaveSettings := SaveSettings(" ", DefaultPdbSettings)

  /** `dump2file(system, path, override, **settings)`: unless `override` is
      set, an existing path is refused first; then the writer is chosen by
      the last three characters of the path, `xyz` or `pdb`, anything else
      refused with those characters. */
  function Dump2File(system: MolecularSystem, path: string, override: bool, existing: set<string>, settings: SaveSettings): (r: Result<Written, IoError>)
    ensures !override && path in existing ==> r == Err(FileAlreadyExists(path))
    ensures (override || path !in existing) && Tail(path, 3) !in {"xyz", "pdb"} ==> r == Err(FileTypeError(Tail(path, 3)))
    ensures r.Ok? ==> r.value.path == path
    ensures r.Ok? && Tail(path, 3) == "xyz" ==> r.value.text == SaveXyz(system, settings.remark)
    ensures (override || path !in existing) && Tail(path, 3) == "xyz" ==>
      r == Ok(Written(path, SaveXyz(system, settings.remark)))
    ensures (override || path !in existing) && Tail(path, 3) == "pdb" && r.Err? ==>
      SavePdb(system, settings.pdb).Err? && r.error == SavePdb(system, settings.pdb).error
    ensures Tail(path, 3) == "pdb" && (override || path !in existing) ==>
      (r.Ok? <==> SavePdb(system, settings.pdb).Ok?)
      && (r.Ok? ==> r.value.text == SavePdb(system, settings.pdb).value)
  {
    var suffix := Tail(path, 3);
    if !override && path in existing then Err(FileAlreadyExists(path))
    else if suffix == "xyz" then Ok(Written(path, SaveXyz(system, settings.remark)))
    else if suffix == "pdb" then
      var text :- SavePdb(system, settings.pdb);
      Ok(Written(path, text))
    else Err(FileTypeError(suffix))
  }

  // ---------------------------------------------------------------------
  // Column layout

  /** With fields that fit their columns, an atom line is eighty characters
      and the serial number, name, coordinates and element sit in the columns
      the PDB format gives them (7-11, 13-16, 31-54 and 77-78). */
  lemma AtomLineColumns(serial: nat, name: string, settings: PdbSettings, c: Coordinate, element: string)
    requires serial < 100000
    requires |name| <= 4 && |element| <= 2
    requires |settings.resName| <= 3 && |settings.chainId| == 1 && |IntToString(settings.resSeq)| <= 4
    requires |c.x.fixed8_3| == 8 && |c.y.fixed8_3| == 8 && |c.z.fixed8_3| == 8
    ensures var line := AtomLine(serial, name, settings, c, element);
      && |line| == 80
      && line[..6] == "ATOM  "
      && line[6..11] == RJust(NatToString(serial), 5) && line[11] == ' '
      && line[12..16] == Center(name, 4)
      && line[30..38] == c.x.fixed8_3 && line[38..46] == c.y.fixed8_3 && line[46..54] == c.z.fixed8_3
      && line[76..78] == RJust(element, 2)
  {
    assert Pow10(5) == 100000;
    NatToStringLength(serial, 5);
    var lead := AtomLineLead(serial);
    var nameField := AtomNameField(name);
    var residue := ResidueFields(settings);
    var coords := CoordinateFields(c);
    var elementField := ElementField(element);
    assert |lead| == 12 && |nameField| == 4 && |residue| == 14 && |coords| == 24 && |elementField| == 26;
    var line := lead + nameField + residue + coords + elementField;
    assert line[..6] == lead[..6];
    assert line[6..11] == lead[6..11];
    assert line[12..16] == nameField;
    assert line[30..54] == coords;
    assert line[30..38] == coords[0..8];
    assert line[38..46] == coords[8..16];
    assert line[46..54] == coords[16..24];
    assert line[76..78] == elementField[22..24];
  }

  lemma ConcatThree(a: string, b: string, c: string)
    ensures Concat([a, b, c]) == a + b + c
  {
    assert [a, b, c][1..] == [b, c];
    assert [b, c][1..] == [c];
    assert [c][1..] == [];
    assert Concat([c]) == c + "" == c;
    assert Concat([b, c]) == b + c;
  }

  /** Three fields written one after another sit at consecutive columns. */
  lemma FieldsAt(before: string, x: string, y: string, z: string, after: string)
    ensures var t := before + x + y + z + after;
      var i := |before|;
      && t[..i] == before
      && t[i..i + |x|] == x
      && t[i + |x|..i + |x| + |y|] == y
      && t[i + |x| + |y|..i + |x| + |y| + |z|] == z
      && t[i + |x| + |y| + |z|..] == after
  {
  }

  /** With a six-value cell whose values fit their columns, the `CRYST1`
      line holds them at columns 7-54, and the space group after a space. */
  lemma CrystLineColumns(cell: seq<Float>, spaceGroup: Option<string>)
    requires |cell| == 6
    requires forall k :: 0 <= k < 3 ==> |cell[k].fixed9_3| == 9
    requires forall k :: 3 <= k < 6 ==> |cell[k].fixed7_2| == 7
    ensures var line := CrystLine(cell, spaceGroup);
      && |line| == 55 + |spaceGroup.GetOr("P1")|
      && line[..6] == "CRYST1"
      && line[6..15] == cell[0].fixed9_3 && line[15..24] == cell[1].fixed9_3 && line[24..33] == cell[2].fixed9_3
      && line[33..40] == cell[3].fixed7_2 && line[40..47] == cell[4].fixed7_2 && line[47..54] == cell[5].fixed7_2
      && line[54..] == " " + spaceGroup.GetOr("P1")
  {
    var l := [cell[0].fixed9_3, cell[1].fixed9_3, cell[2].fixed9_3];
    var a := [cell[3].fixed7_2, cell[4].fixed7_2, cell[5].fixed7_2];
    assert cell[..3] == cell[..Min(3, |cell|)];
    assert seq(3, k requires 0 <= k < 3 => cell[..3][k].fixed9_3) == l;
    assert seq(3, k requires 0 <= k < 3 => cell[3..][k].fixed7_2) == a;
    ConcatThree(l[0], l[1], l[2]);
    ConcatThree(a[0], a[1], a[2]);
    var sg := " " + spaceGroup.GetOr("P1");
    var line := "CRYST1" + Concat(l) + Concat(a) + sg;
    assert line == CrystLine(cell, spaceGroup);
    FieldsAt("CRYST1", l[0], l[1], l[2], a[0] + a[1] + a[2] + sg);
    FieldsAt("CRYST1" + l[0] + l[1] + l[2], a[0], a[1], a[2], sg);
  }
}
