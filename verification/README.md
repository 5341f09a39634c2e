# stk building blocks and pyWINDOW file I/O, modelled in Dafny

This project models three pieces of the stk repository that are plain
bookkeeping over ids and text lines, and proves what they promise.

- **Building blocks** (`src/stk/molecular/molecules/building_block.py`). A
  building block holds atoms, functional groups and placer ids. Atoms are
  reduced to their ids. A functional group is three id sequences: atom ids,
  placer ids and core atom ids. A functional-group factory is an arbitrary
  function of the building block's atom ids. The model covers how groups are
  collected from groups and factories, how placer ids are chosen, group
  selection by `None`, an `int` or an iterable, the two phases of
  `get_core_atom_ids`, `clone` and `with_functional_groups`, the placer-id
  remap under a canonical atom ordering, and the extension check of
  `init_from_file`. `get_num_functional_groups` and `get_placer_ids` are
  plain accessors (`BuildingBlocks.GetNumFunctionalGroups`,
  `BuildingBlocks.GetPlacerIds`). The lemma about selecting every group
  states the group count.
- **`FunctionalGroup.with_ids`**. Its contract is the one the `with_ids`
  test checks with `zip_longest`. The model shows that this check holds
  exactly when each id sequence is passed once through the id map.
- **pyWINDOW readers and writers** (`addons/pyWINDOW/pywindow/io_tools.py`).
  The model covers the XYZ, PDB and MOL readers over the lines `readlines()`
  returns, and the dispatch on the file extension. It also covers the JSON
  and molecular-file dumps with their existence and file-type checks, and
  the exact text the XYZ and PDB writers produce. Numbers are opaque. A
  reader returns the text that `float` would parse. A writer is given the
  text each format would print. The PDB columns follow the ATOM and CRYST1
  record layouts of the wwPDB PDB File Format version 3.3 (chapters 9 and
  8). The MOL reader extracts the `BEGIN ATOM` … `END ATOM` block of a
  V3000 connection table. `load_file` is modelled twice: as written, with
  the PDB reader as written (`PyWindowInput.LoadFile`), and with the
  corrected PDB reader of the Findings section
  (`PyWindowInput.LoadFileCorrected`).

The Python string operations the code relies on are modelled once, in
module `PyText`. These are `split`, `strip`, `center`, `rjust`, `ljust`,
clamped slicing, `count`, `str(int)`, `readlines` with universal newlines,
and POSIX `os.path.splitext`. Errors become values of a `Result` type.

Files: `results.dfy` (Option, Result), `pytext.dfy`, `functional_group.dfy`,
`building_block.dfy`, `io_errors.dfy`, `io_input.dfy`, `io_output.dfy`,
`io_roundtrip.dfy`.

Where the code and its documentation differ, the model follows the code:

- `_read_xyz` fails on every line from the third on that has fewer than
  four tokens, not only on blank lines. The element needs one token and the
  coordinates three more.
- `_read_mol` takes the third line as a remark whenever it is not exactly
  `"\n"`, so a line holding only spaces still counts as a remark.

## Model

| member | source | states |
|---|---|---|
| FunctionalGroups.WithIds | tests/molecular/functional_groups/functional_group/functional_group/with_ids/test_with_ids.py:56-73 | the remapped group passes the test's `zip_longest` check for atom ids, placer ids and core atom ids alike; the original is a value and is unchanged |
| FunctionalGroups.ModifiedIdSequenceIff | tests/molecular/functional_groups/functional_group/functional_group/with_ids/test_with_ids.py:76-81 | the test's check holds if and only if the second sequence has the first's length and holds, position by position, the mapped id or the unchanged id |
| FunctionalGroups.WithIdsIsSinglePass | tests/molecular/functional_groups/functional_group/functional_group/with_ids/test_with_ids.py:78-79 | a mapped id becomes `id_map[id]`, not `id_map[id_map[id]]`, even when the map sends its image on again |
| FunctionalGroups.WithEmptyMap | tests/molecular/functional_groups/functional_group/functional_group/with_ids/test_with_ids.py:76-81 | an empty map leaves all three id sequences equal to the originals |
| FunctionalGroups.SubstituteTwice | tests/molecular/functional_groups/functional_group/functional_group/with_ids/test_with_ids.py:76-81 | remapping twice equals remapping once through the composed map |
| FunctionalGroups.FixedMapIsIdentity | src/stk/molecular/molecules/building_block.py:759-771 | a map sending every key to itself, like the building block's own atom map, leaves a group unchanged |
| BuildingBlocks.ExpandSourcesAppend | src/stk/molecular/molecules/building_block.py:753-757 | the groups of a concatenation of sources are the groups of each part in turn, so relative order is kept |
| BuildingBlocks.ExpandInPlace | src/stk/molecular/molecules/building_block.py:753-757 | each source's groups sit after those of every earlier source and before those of every later one |
| BuildingBlocks.OnlyGroupsPassThrough | src/stk/molecular/molecules/building_block.py:754-755 | a collection holding only groups yields exactly those groups in order |
| BuildingBlocks.LoneSourceIsWrapped | src/stk/molecular/molecules/building_block.py:748-750 | a lone group or factory gives the same as a one-element collection of it: the group itself, or what the factory finds |
| BuildingBlocks.RebindGroups | src/stk/molecular/molecules/building_block.py:759-771 | rebinding the groups to the building block's own atoms keeps every group as it was |
| BuildingBlocks.WithFunctionalGroups | src/stk/molecular/molecules/building_block.py:774-794 | the clone has the original's atoms and placer ids and exactly the given groups |
| BuildingBlocks.PlacersNotRecomputed | src/stk/molecular/molecules/building_block.py:851-855 | a block built without explicit placer ids, given any new groups, keeps the placer ids normalised against its original groups, with their count, and not ones chosen from the new groups |
| BuildingBlocks.NormalizePlacerIds | src/stk/molecular/molecules/building_block.py:704-713 | given placer ids are returned unchanged; without them, a placer id is chosen if and only if some group has it, and every group's placer ids are all kept; with no groups either, all atom ids in atom order |
| BuildingBlocks.PlacersInGroupOrder | src/stk/molecular/molecules/building_block.py:707-711 | the placer ids chosen from groups are each group's placer ids in group order, each group's block unchanged at its offset, and nothing else |
| BuildingBlocks.Init | src/stk/molecular/molecules/building_block.py:663-670 | the block's groups are those extracted from the argument, and its placer ids follow the three-way rule against those groups |
| BuildingBlocks.TupleIndex | src/stk/molecular/molecules/building_block.py:849 | an id indexes the group tuple if and only if `-n <= id < n`, negative ids counting from the end |
| BuildingBlocks.YieldGroups | src/stk/molecular/molecules/building_block.py:848-849 | groups are yielded in the order of the ids; with no bad id, one group per id; otherwise every group before the first bad id, then `IndexError` for that id |
| BuildingBlocks.AllGroupsInOrder | src/stk/molecular/molecules/building_block.py:843-844 | with no ids, every group is yielded in id order, as many as `get_num_functional_groups` gives |
| BuildingBlocks.OneGroupSelected | src/stk/molecular/molecules/building_block.py:845-846 | a single id yields that one group, or raises `IndexError` at once |
| BuildingBlocks.GivenIdsInOrder | src/stk/molecular/molecules/building_block.py:848-849 | in-range ids yield the groups in the order given, one per id |
| BuildingBlocks.GetCoreAtomIds | src/stk/molecular/molecules/building_block.py:891-903 | first every atom in no group, in atom order, then each group's core atoms, in group order; an id is yielded if and only if it is such an atom or some group's core atom |
| BuildingBlocks.CollectOutside | src/stk/molecular/molecules/building_block.py:896-899 | the first loop collects, in atom order, exactly the atoms that lie in no group |
| BuildingBlocks.CollectCores | src/stk/molecular/molecules/building_block.py:901-903 | the second loop collects every group's core atoms, group after group |
| BuildingBlocks.RemapPlacerIds | src/stk/molecular/molecules/building_block.py:806-809 | placer id `p` becomes `ordering[p]`, count and order kept; an id with no atom-map entry raises `KeyError`, and only then; the error names the first such id |
| BuildingBlocks.WithCanonicalAtomOrdering | src/stk/molecular/molecules/building_block.py:796-811 | reordering succeeds exactly when every placer id is an atom position; the atoms are numbered by position, each group is remapped by `with_ids` through the ordering, placer id `p` becomes `ordering[p]`; on failure the error is the placer-id remap's |
| BuildingBlocks.RemapKeepsDistinct | src/stk/molecular/molecules/building_block.py:806-809 | a one-to-one ranking keeps distinct placer ids distinct |
| BuildingBlocks.RemapByInverse | src/stk/molecular/molecules/building_block.py:806-809 | placer ids that are all atom positions remap without error, and remapping the result by the inverse ranking gives them back |
| BuildingBlocks.InitFromFile | src/stk/molecular/molecules/building_block.py:507-517 | loading succeeds if and only if the extension is `.mol`, `.sdf` or `.pdb`; any other raises `ValueError` naming it; `.pdb` uses the PDB reader, the others the MOL reader |
| BuildingBlocks.InitFromFileByExtension | src/stk/molecular/molecules/building_block.py:48-67 | a path ending in a dotted suffix is accepted if and only if the suffix is one of the three keys |
| PyText.SplitJoinedWords | addons/pyWINDOW/pywindow/io_tools.py:265 | words joined by single spaces with a line feed split back into the same words |
| PyText.StripCenter | addons/pyWINDOW/pywindow/io_tools.py:353 | a stripped name centred in any width strips back to itself |
| PyText.StripRJust | addons/pyWINDOW/pywindow/io_tools.py:365 | a stripped element right-justified in any width strips back to itself |
| PyText.ReadJoinedLines | addons/pyWINDOW/pywindow/io_tools.py:367-371 | lines joined with line feeds read back as those lines, each but the last with its line feed |
| PyText.ExtensionOfStem | addons/pyWINDOW/pywindow/io_tools.py:75 | a path made of a stem and a dotted suffix has that suffix as its extension |
| PyWindowInput.ReadXyz | addons/pyWINDOW/pywindow/io_tools.py:111-126 | reading succeeds if and only if there are two lines and every later line has four tokens; then the remark is the second line and each later line's tokens start with its element and three coordinates; otherwise `_CorruptedXYZFile` |
| PyWindowInput.UnitCell | addons/pyWINDOW/pywindow/io_tools.py:138-143 | six cell fields per `CRYST1` line, in line order, at the fixed columns |
| PyWindowInput.ExtractPdb | addons/pyWINDOW/pywindow/io_tools.py:146-162 | one atom id, one element and one coordinate triple per `ATOM`/`HETATM` record |
| PyWindowInput.ReadPdb | addons/pyWINDOW/pywindow/io_tools.py:128-133 | as written: the file is refused with `_CorruptedPDBFile` if and only if the letters `END` occur more than once in all |
| PyWindowInput.RecordsMembers | addons/pyWINDOW/pywindow/io_tools.py:134-137 | the records of a kind are exactly the lines whose first six characters name that kind |
| PyWindowInput.ReadPdbRecords | addons/pyWINDOW/pywindow/io_tools.py:130-133 | corrected: the file is refused if and only if more than one record starts with `END` |
| PyWindowInput.EndRecordsAtMostMentions | addons/pyWINDOW/pywindow/io_tools.py:130 | every `END` record mentions `END` at least once |
| PyWindowInput.CorrectedReaderAgrees | addons/pyWINDOW/pywindow/io_tools.py:130-133 | the corrected reader accepts every file the reader as written accepts, reads it the same way, and refuses only files the reader as written refuses |
| PyWindowInput.InBlockStep | addons/pyWINDOW/pywindow/io_tools.py:176-182 | the loop's flag after a line is set if and only if the line opens the atom block, or the flag was set and the line does not close it |
| PyWindowInput.MolScanFails | addons/pyWINDOW/pywindow/io_tools.py:174-182 | a three-token line whose missing fourth token is read makes the loop raise `IndexError` |
| PyWindowInput.MolScanCollects | addons/pyWINDOW/pywindow/io_tools.py:174-182 | without such a line, the loop collects the fourth token and tokens 5-7 of exactly the lines strictly inside the atom block, in order |
| PyWindowInput.MolScanFromStart | addons/pyWINDOW/pywindow/io_tools.py:173-182 | the loop from the first line, flag cleared, fails or collects as the reference says |
| PyWindowInput.ReadMol | addons/pyWINDOW/pywindow/io_tools.py:165-185 | success if and only if there are three lines and no faulty line; then the remark is present exactly when the third line is not `"\n"`, and the atoms are those of the block |
| PyWindowInput.LoadFile | addons/pyWINDOW/pywindow/io_tools.py:74-80 | `.xyz`, `.pdb` and `.mol` files go to their reader, the PDB reader as written; any other extension raises `KeyError` naming it |
| PyWindowInput.LoadFileCorrected | addons/pyWINDOW/pywindow/io_tools.py:74-80 | with the corrected PDB reader, every file `load_file` loads is loaded to the same dictionary, and the two differ only on a `.pdb` file with at most one `END` record but more than one mention of `END` |
| PyWindowOutput.JsonPath | addons/pyWINDOW/pywindow/io_tools.py:212-215 | the path is kept if and only if its last four characters are `json`, otherwise `.json` is appended; the result always ends in `json` |
| PyWindowOutput.JsonPathIdempotent | addons/pyWINDOW/pywindow/io_tools.py:212-215 | normalising the path twice is normalising it once |
| PyWindowOutput.Dump2Json | addons/pyWINDOW/pywindow/io_tools.py:206-223 | a non-dictionary is refused first; then an existing target is refused unless `override` is set; the target is the normalised path |
| PyWindowOutput.Dump2File | addons/pyWINDOW/pywindow/io_tools.py:228-242 | an existing path is refused before the type check unless `override` is set; then only paths whose last three characters are `xyz` or `pdb` are written, by that writer |
| PyWindowOutput.XyzLines | addons/pyWINDOW/pywindow/io_tools.py:263-265 | the element count, the remark, then for each pair `zip` forms the element and the three coordinates joined by spaces |
| PyWindowOutput.RemarkLines | addons/pyWINDOW/pywindow/io_tools.py:292-302 | no lines for no remarks, one for a single remark, one per item for a list; each is `REMARK ` followed by the remark |
| PyWindowOutput.HeaderLines | addons/pyWINDOW/pywindow/io_tools.py:288-302 | the fixed `REMARK` header, then the user remark lines |
| PyWindowOutput.CrystLines | addons/pyWINDOW/pywindow/io_tools.py:304-329 | one `CRYST1` line if and only if the system has a cell |
| PyWindowOutput.AtomLines | addons/pyWINDOW/pywindow/io_tools.py:351-367 | one `ATOM` line per atom id, the `i`-th numbered `i + 1` and holding that atom's id, coordinates and element |
| PyWindowOutput.PdbLines | addons/pyWINDOW/pywindow/io_tools.py:351-371 | the header first and `END` last, with one line per remark, per cell and per atom between |
| PyWindowOutput.SavePdb | addons/pyWINDOW/pywindow/io_tools.py:290-371 | a system without atom ids raises `KeyError`; fewer elements or coordinates than atom ids raise `IndexError`; otherwise the file is written |
| PyWindowOutput.AtomLineColumns | addons/pyWINDOW/pywindow/io_tools.py:352-366 | with fields that fit, an atom line is 80 characters with the serial number right-justified at columns 7-11, the centred name at 13-16, coordinates at 31-54 and the element at 77-78 |
| PyWindowOutput.CrystLineColumns | addons/pyWINDOW/pywindow/io_tools.py:306-325 | with six values that fit, the cell sits at columns 7-54, then a space and the space group, `P1` by default |
| PyWindowRoundTrip.XyzRoundTrip | addons/pyWINDOW/pywindow/io_tools.py:263-265 | an XYZ file read back gives its remark line and every written element and printed coordinate |
| PyWindowRoundTrip.ReadXyzTokens | addons/pyWINDOW/pywindow/io_tools.py:116-120 | lines that split into an element and three tokens read as exactly those |
| PyWindowRoundTrip.XyzAtomLineSplits | addons/pyWINDOW/pywindow/io_tools.py:265 | each written atom line splits into its element and three coordinates |
| PyWindowRoundTrip.AtomLineReads | addons/pyWINDOW/pywindow/io_tools.py:147-162 | a written atom line is an atom record whose name, element and coordinate fields read back as written |
| PyWindowRoundTrip.CrystLineReads | addons/pyWINDOW/pywindow/io_tools.py:138-143 | a written `CRYST1` line is a cell record whose six fields read back as the values written |
| PyWindowRoundTrip.HeaderLinesAreRemarks | addons/pyWINDOW/pywindow/io_tools.py:135-137 | the header and every user remark line read back as remark records |
| PyWindowRoundTrip.WrittenRecords | addons/pyWINDOW/pywindow/io_tools.py:134-162 | a written file's lines filter back into its remark, cell and atom lines, with one `END` record |
| PyWindowRoundTrip.ReadOfBlocks | addons/pyWINDOW/pywindow/io_tools.py:128-163 | remark, cell and atom records followed by one `END` are accepted by the corrected reader and read as the remarks, the cell fields and each atom's fields in order |
| PyWindowRoundTrip.PdbReadsAsLines | addons/pyWINDOW/pywindow/io_tools.py:367-373 | the written text reads back as the written lines |
| PyWindowRoundTrip.PdbRoundTrip | addons/pyWINDOW/pywindow/io_tools.py:269-374 | a PDB file read back with the corrected reader gives its remark lines, its cell and every atom's id, element and coordinates |
| PyWindowRoundTrip.AsWrittenRejectsEndInRemark | addons/pyWINDOW/pywindow/io_tools.py:130-133 | a remark holding `END` makes the reader as written refuse a file its writer produced, which the corrected reader reads back |
| PyWindowRoundTrip.EndRemarkCounterexample | addons/pyWINDOW/pywindow/io_tools.py:295-296 | the file written with no atoms and the one remark `END` is refused by the reader as written and read by the corrected one |
| PyWindowRoundTrip.DumpThenLoadXyz | addons/pyWINDOW/pywindow/io_tools.py:228-265 | a system `dump2file` writes to `stem.xyz` is loaded back by `load_file` to its remark line, its elements and each atom's coordinate tokens |
| PyWindowRoundTrip.DumpThenLoadPdb | addons/pyWINDOW/pywindow/io_tools.py:228-242 | a system `dump2file` writes to `stem.pdb` is loaded back by the corrected `load_file` to its remarks, cell and atoms; `load_file` as written loads it if and only if the text mentions `END` at most once |
| PyWindowRoundTrip.LoadFileRejectsEndRemark | addons/pyWINDOW/pywindow/io_tools.py:74-80 | with a remark holding `END`, `load_file` refuses the file `dump2file` wrote, which the corrected `load_file` loads |

## Left out

- RDKit, vabene and NumPy work in `building_block.py` is not modelled. This covers SMILES parsing, embedding, `remake`, bonds, position matrices and `CanonicalRankAtoms`. These are foreign libraries. The canonical ordering is a parameter, and the file reader of `init_from_file` is a parameter that returns the atoms.
- BuildingBlocks.WithCanonicalAtomOrdering: `Molecule._with_canonical_atom_ordering` is not part of this model. The model assumes it renumbers the atoms so that ids equal positions.
- `get_functional_groups` and `get_placer_ids` are generators. The model returns what they would produce as a sequence, plus the error raised, if any.
- Floating-point parsing and printing are left out. This covers `float(...)`, `%.2f`, `%7.2f`, `%8.3f` and `%9.3f`. A number is the text a format gives for it. The `ValueError` that `float` or `np.array(..., dtype=float)` raises on malformed or ragged fields is not modelled.
- The unit cell to lattice conversion in `_read_pdb` is left out. It is floating-point numerics in a helper module.
- `decipher_atom_key` and the `decipher`/`forcefield` settings are left out. That helper module is not part of this model.
- `load_rdkit_mol` is left out. It calls RDKit.
- File I/O is left out: `open`, `os.path.isfile`, `os.path.split`, writing files, and `os.getcwd`. Existing files are a set of paths. File content is a string given to `readlines`. A dump returns the path and the text it would write.
- PyWindowOutput.Dump2Json: `json.dump` and its keyword arguments are left out. The contract covers only the type check, the path rule and the existence check.
- `override` is a boolean. The source tests `override is False`, so a falsy value other than `False` would skip the existence check. That case is not modelled.
- The writers always use the default dictionary keys. Renaming them through settings is not modelled, and the unused `connect` setting is ignored.
- The XYZ remark and a scalar PDB remark are taken as the strings `str` and `format` would make of them.
- PyWindowInput.ReadXyz: `_read_xyz` keeps the remark line in the reader's `file_remarks` attribute and returns a dictionary of elements and coordinates only. The model folds that remark into the value it returns, so `PyWindowInput.LoadFile` and `PyWindowRoundTrip.DumpThenLoadXyz` show it beside the dictionary. The PDB and MOL readers do put their remarks in the dictionary.
- PyWindowInput.ExtractPdb: the contract states only that there is one entry per atom record. What the entries hold is stated for written files by PyWindowRoundTrip.ReadOfBlocks, and which lines are records by PyWindowInput.RecordsMembers.
- PyWindowOutput.CrystLine: the columns of the `CRYST1` line are stated (PyWindowOutput.CrystLineColumns) only for a six-value cell whose values fit their widths. Other cells give a line of another layout, which the model builds but does not describe.
- Whitespace is the ASCII set that `str.isspace` accepts. Other Unicode whitespace is not modelled.

## Findings

| source | as written | input that shows it | evidently intended | confidence | as-written member | corrected member |
|---|---|---|---|---|---|---|
| addons/pyWINDOW/pywindow/io_tools.py:130-133 | the trajectory check adds up every occurrence of the letters `END` in every line, remarks and atom names included | a file written by `_save_pdb` with `remarks=['END']`, or any remark such as `APPENDED`; its `REMARK END` line and the final `END` make two | refuse a file holding more than one record whose name starts with `END` (`END`, `ENDMDL`), which is how a trajectory shows | medium, not executed | PyWindowRoundTrip.EndRemarkCounterexample | PyWindowInput.ReadPdbRecords |
