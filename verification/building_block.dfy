/**
 The bookkeeping a building block does over atom ids: collecting its
 functional groups from groups and factories, choosing its placer ids,
 selecting groups, listing core atoms, copying with new groups, remapping
 under a canonical atom ordering, and the file-extension check before
 loading a file.
 */
module BuildingBlocks {
  import opened Results
  import opened PyText
  import opened FunctionalGroups

  /** The errors the building block raises. */
  datatype BlockError =
    | ValueError(extension: string)   // unsupported file extension
    | IndexError(groupId: int)        // functional group id out of range
    | KeyError(atomId: int)           // placer id with no canonical rank

  /** What may be passed as `functional_groups`: a group, or a factory that
      finds groups in the building block. A factory is an arbitrary function
      of the building block's atom ids. */
  datatype GroupSource =
    | Group(group: FunctionalGroup)
    | Factory(find: seq<int> -> seq<FunctionalGroup>)

  /** A single group or factory, or a collection of them. */
  datatype GroupsArgument =
    | One(source: GroupSource)
    | Many(sources: seq<GroupSource>)

  /** A building block reduced to ids: the ids of its atoms in atom order,
      its functional groups and its placer ids. */
  datatype BuildingBlock = BuildingBlock(
    atoms: seq<int>,
    functionalGroups: seq<FunctionalGroup>,
    placerIds: seq<int>)

  // ---------------------------------------------------------------------
  // _extract_functional_groups

  /** The groups one source contributes. */
  function Produced(atoms: seq<int>, source: GroupSource): seq<FunctionalGroup>
  {
    match source
    case Group(g) => [g]
    case Factory(find) => find(atoms)
  }

  /** Groups pass through, factories are replaced by what they find. */
  function ExpandSources(atoms: seq<int>, sources: seq<GroupSource>): seq<FunctionalGroup>
    decreases |sources|
  {
    if sources == [] then []
    else Produced(atoms, sources[0]) + ExpandSources(atoms, sources[1..])
  }

  /** `_extract_functional_groups`: a lone group or factory is treated as a
      one-element collection. */
  function ExtractFunctionalGroups(atoms: seq<int>, arg: GroupsArgument): seq<FunctionalGroup>
  {
    match arg
    case One(s) => ExpandSources(atoms, [s])
    case Many(ss) => ExpandSources(atoms, ss)
  }

  /** Expansion works piecewise: the groups of a concatenation of sources are
      the groups of the first part followed by those of the second, so every
      source is expanded in place and relative order is kept. */
  lemma {:induction false} ExpandSourcesAppend(atoms: seq<int>, a: seq<GroupSource>, b: seq<GroupSource>)
    ensures ExpandSources(atoms, a + b) == ExpandSources(atoms, a) + ExpandSources(atoms, b)
    decreases |a|
  {
    if a == [] {
      assert a + b == b;
    } else {
      assert (a + b)[1..] == a[1..] + b;
      ExpandSourcesAppend(atoms, a[1..], b);
    }
  }

  /** A source sits in the result exactly where its position puts it: after
      the groups of every source before it. */
  lemma ExpandInPlace(atoms: seq<int>, sources: seq<GroupSource>, k: nat)
    requires k < |sources|
    ensures ExpandSources(atoms, sources)
            == ExpandSources(atoms, sources[..k]) + Produced(atoms, sources[k])
               + ExpandSources(atoms, sources[k + 1..])
  {
    assert sources == sources[..k] + ([sources[k]] + sources[k + 1..]);
    ExpandSourcesAppend(atoms, sources[..k], [sources[k]] + sources[k + 1..]);
    assert ([sources[k]] + sources[k + 1..])[1..] == sources[k + 1..];
  }

  /** A collection holding only groups yields exactly those groups, in order. */
  lemma {:induction false} OnlyGroupsPassThrough(atoms: seq<int>, groups: seq<FunctionalGroup>)
    ensures ExtractFunctionalGroups(atoms, Many(seq(|groups|, i requires 0 <= i < |groups| => Group(groups[i]))))
            == groups
    decreases |groups|
  {
    var sources := seq(|groups|, i requires 0 <= i < |groups| => Group(groups[i]));
    if groups != [] {
      OnlyGroupsPassThrough(atoms, groups[1..]);
      assert sources[1..] == seq(|groups[1..]|, i requires 0 <= i < |groups[1..]| => Group(groups[1..][i]));
      assert groups == [groups[0]] + groups[1..];
    }
  }

  /** A lone group or factory gives what a one-element collection of it
      gives: the group itself, or whatever the factory finds. */
  lemma LoneSourceIsWrapped(atoms: seq<int>, source: GroupSource)
    ensures ExtractFunctionalGroups(atoms, One(source)) == ExtractFunctionalGroups(atoms, Many([source]))
    ensures source.Group? ==> ExtractFunctionalGroups(atoms, One(source)) == [source.group]
    ensures source.Factory? ==> ExtractFunctionalGroups(atoms, One(source)) == source.find(atoms)
  {
    assert [source][1..] == [];
    assert ExpandSources(atoms, [source]) == Produced(atoms, source) + ExpandSources(atoms, []);
    assert Produced(atoms, source) + [] == Produced(atoms, source);
  }

  // ---------------------------------------------------------------------
  // _with_functional_groups, with_functional_groups, clone

  /** The atom map a building block builds from its own atoms, seen through
      ids: each atom id is sent to the id of the atom it names, itself. */
  function OwnAtomMap(atoms: seq<int>): (m: map<int, int>)
    ensures forall id :: id in m ==> m[id] == id
  {
    map id | id in atoms :: id
  }

  /** `_with_functional_groups`: every group rebound to the building block's
      own atoms with `with_atoms`. Rebinding keeps every id. */
  function RebindGroups(atoms: seq<int>, groups: seq<FunctionalGroup>): (r: seq<FunctionalGroup>)
    ensures r == groups
  {
    var r := seq(|groups|, i requires 0 <= i < |groups| => WithIds(groups[i], OwnAtomMap(atoms)));
    forall i | 0 <= i < |groups|
      ensures r[i] == groups[i]
    {
      FixedMapIsIdentity(groups[i], OwnAtomMap(atoms));
    }
    r
  }

  /** `clone`: a building block is a value, so the clone equals it. */
  function Clone(bb: BuildingBlock): BuildingBlock
  {
    bb
  }

  /** `with_functional_groups`: a clone carrying the given groups. The atoms
      and placer ids are those of the original, not recomputed from the new
      groups. */
  function WithFunctionalGroups(bb: BuildingBlock, groups: seq<FunctionalGroup>): (r: BuildingBlock)
    ensures r.atoms == bb.atoms
    ensures r.functionalGroups == groups
    ensures r.placerIds == bb.placerIds
  {
    var c := Clone(bb);
    c.(functionalGroups := RebindGroups(c.atoms, groups))
  }

  /** Because placer ids are copied, a building block whose placers were
      chosen from its groups keeps the placers chosen from its old groups
      when given new ones, whatever those are. */
  lemma {:induction false} PlacersNotRecomputed(atoms: seq<int>, arg: GroupsArgument, groups: seq<FunctionalGroup>)
    ensures var bb := Init(atoms, arg, None);
            var r := WithFunctionalGroups(bb, groups);
            && r.functionalGroups == groups
            && r.placerIds == NormalizePlacerIds(atoms, None, bb.functionalGroups)
            && (bb.functionalGroups != [] ==> |r.placerIds| == PlacerCount(bb.functionalGroups))
  {
    var bb := Init(atoms, arg, None);
    assert bb.placerIds == NormalizePlacerIds(atoms, None, bb.functionalGroups);
  }

  // ---------------------------------------------------------------------
  // _normalize_placer_ids

  /** The placer ids of every group, group after group. */
  function FlattenPlacers(groups: seq<FunctionalGroup>): seq<int>
    decreases |groups|
  {
    if groups == [] then [] else groups[0].placerIds + FlattenPlacers(groups[1..])
  }

  /** How many placer ids the groups hold between them. */
  function PlacerCount(groups: seq<FunctionalGroup>): nat
    decreases |groups|
  {
    if groups == [] then 0 else |groups[0].placerIds| + PlacerCount(groups[1..])
  }

  /** Flattening keeps every placer id of every group. */
  lemma {:induction false} FlattenPlacersCount(groups: seq<FunctionalGroup>)
    ensures |FlattenPlacers(groups)| == PlacerCount(groups)
    decreases |groups|
  {
    if groups != [] {
      FlattenPlacersCount(groups[1..]);
    }
  }

  /** `_normalize_placer_ids`: the given placer ids if there are any; else
      the placer ids of the groups if there are groups; else every atom. */
  function NormalizePlacerIds(atoms: seq<int>, placerIds: Option<seq<int>>, groups: seq<FunctionalGroup>): (r: seq<int>)
    ensures placerIds.Some? ==> r == placerIds.value
    ensures placerIds.None? && groups != [] ==>
      forall p :: p in r <==> exists i :: 0 <= i < |groups| && p in groups[i].placerIds
    ensures placerIds.None? && groups != [] ==> |r| == PlacerCount(groups)
    ensures placerIds.None? && groups == [] ==> r == atoms
  {
    if placerIds.Some? then placerIds.value
    else if groups != [] then
      FlattenPlacersMembers(groups);
      FlattenPlacersCount(groups);
      FlattenPlacers(groups)
    else atoms
  }

  lemma {:induction false} FlattenPlacersAppend(a: seq<FunctionalGroup>, b: seq<FunctionalGroup>)
    ensures FlattenPlacers(a + b) == FlattenPlacers(a) + FlattenPlacers(b)
    decreases |a|
  {
    if a == [] {
      assert a + b == b;
    } else {
      assert (a + b)[1..] == a[1..] + b;
      FlattenPlacersAppend(a[1..], b);
    }
  }

  lemma {:induction false} FlattenPlacersMembers(groups: seq<FunctionalGroup>)
    ensures forall p :: p in FlattenPlacers(groups) <==>
      exists i :: 0 <= i < |groups| && p in groups[i].placerIds
    decreases |groups|
  {
    if groups != [] {
      FlattenPlacersMembers(groups[1..]);
      forall p | p in FlattenPlacers(groups)
        ensures exists i :: 0 <= i < |groups| && p in groups[i].placerIds
      {
        if p !in groups[0].placerIds {
          assert p in FlattenPlacers(groups[1..]);
          var j :| 0 <= j < |groups[1..]| && p in groups[1..][j].placerIds;
          assert p in groups[j + 1].placerIds;
        }
      }
      forall p, i | 0 <= i < |groups| && p in groups[i].placerIds
        ensures p in FlattenPlacers(groups)
      {
        if i > 0 {
          assert p in groups[1..][i - 1].placerIds;
        }
      }
    }
  }

  /** Total number of placer ids in the first `k` groups. */
  function PlacerOffset(groups: seq<FunctionalGroup>, k: nat): nat
    requires k <= |groups|
  {
    |FlattenPlacers(groups[..k])|
  }

  /** The placer ids chosen from the groups keep group order: group `k`'s
      placer ids sit, unchanged, right after those of the groups before it. */
  lemma PlacersInGroupOrder(atoms: seq<int>, groups: seq<FunctionalGroup>, k: nat)
    requires k < |groups|
    ensures var r := NormalizePlacerIds(atoms, None, groups);
            var o := PlacerOffset(groups, k);
            |r| == PlacerCount(groups)
            && o + |groups[k].placerIds| <= |r|
            && r[o..o + |groups[k].placerIds|] == groups[k].placerIds
  {
    assert groups == groups[..k] + ([groups[k]] + groups[k + 1..]);
    FlattenPlacersAppend(groups[..k], [groups[k]] + groups[k + 1..]);
    FlattenPlacersAppend([groups[k]], groups[k + 1..]);
    assert FlattenPlacers([groups[k]]) == groups[k].placerIds + FlattenPlacers([]);
  }

  // ---------------------------------------------------------------------
  // init

  /** `init`: the molecule's atoms, its groups extracted and rebound, and its
      placer ids normalised against those groups. */
  function Init(atoms: seq<int>, arg: GroupsArgument, placerIds: Option<seq<int>>): (r: BuildingBlock)
    ensures r.atoms == atoms
    ensures r.functionalGroups == ExtractFunctionalGroups(atoms, arg)
    ensures placerIds.Some? ==> r.placerIds == placerIds.value
    ensures placerIds.None? && r.functionalGroups != [] ==> r.placerIds == FlattenPlacers(r.functionalGroups)
    ensures placerIds.None? && r.functionalGroups == [] ==> r.placerIds == atoms
  {
    var groups := RebindGroups(atoms, ExtractFunctionalGroups(atoms, arg));
    BuildingBlock(atoms, groups, NormalizePlacerIds(atoms, placerIds, groups))
  }

  // ---------------------------------------------------------------------
  // get_num_functional_groups, get_functional_groups, get_placer_ids

  /** Which groups `get_functional_groups` is asked for: `None`, one `int`,
      or an iterable of ids. */
  datatype Selection = AllGroups | OneGroup(id: int) | GroupIds(ids: seq<int>)

  /** What a generator produced: the items yielded, then the error it raised
      if it raised one. */
  datatype Yielded<T> = Yielded(items: seq<T>, raised: Option<BlockError>)

  /** Python tuple indexing: `-n <= i < n` is valid, negative ids counting
      from the end. */
  function TupleIndex(n: nat, i: int): (r: Option<nat>)
    ensures r.Some? <==> -(n as int) <= i < n
    ensures r.Some? ==> r.value < n && (r.value == i || r.value == i + n)
  {
    if 0 <= i < n then Some(i as nat) else if -(n as int) <= i < 0 then Some((i + n) as nat) else None
  }

  predicate ValidIndex(n: nat, i: int)
  {
    TupleIndex(n, i).Some?
  }

  /** The ids a selection stands for. */
  function SelectedIds(n: nat, sel: Selection): seq<int>
  {
    match sel
    case AllGroups => seq(n, i => i)
    case OneGroup(id) => [id]
    case GroupIds(ids) => ids
  }

  /** Yield `groups[id]` for each id in turn, stopping with `IndexError` at
      the first id Python cannot index with. */
  function YieldGroups(groups: seq<FunctionalGroup>, ids: seq<int>): (r: Yielded<FunctionalGroup>)
    ensures |r.items| <= |ids|
    ensures r.raised.None? <==> forall k :: 0 <= k < |ids| ==> ValidIndex(|groups|, ids[k])
    ensures r.raised.None? ==> |r.items| == |ids|
    ensures r.raised.Some? ==>
      |r.items| < |ids| && !ValidIndex(|groups|, ids[|r.items|])
      && r.raised == Some(IndexError(ids[|r.items|]))
    ensures forall k :: 0 <= k < |r.items| ==>
      ValidIndex(|groups|, ids[k]) && r.items[k] == groups[TupleIndex(|groups|, ids[k]).value]
    decreases |ids|
  {
    if ids == [] then Yielded([], None)
    else
      var t := TupleIndex(|groups|, ids[0]);
      if t.None? then Yielded([], Some(IndexError(ids[0])))
      else
        var rest := YieldGroups(groups, ids[1..]);
        Yielded([groups[t.value]] + rest.items, rest.raised)
  }

  /** `get_functional_groups(fg_ids)`. */
  function GetFunctionalGroups(bb: BuildingBlock, sel: Selection): Yielded<FunctionalGroup>
  {
    YieldGroups(bb.functionalGroups, SelectedIds(|bb.functionalGroups|, sel))
  }

  /** `get_num_functional_groups`. */
  function GetNumFunctionalGroups(bb: BuildingBlock): nat
  {
    |bb.functionalGroups|
  }

  /** `get_placer_ids`. */
  function GetPlacerIds(bb: BuildingBlock): seq<int>
  {
    bb.placerIds
  }

  /** With no ids given, every group is yielded in id order, and their number
      is `get_num_functional_groups`. */
  lemma AllGroupsInOrder(bb: BuildingBlock)
    ensures GetFunctionalGroups(bb, AllGroups) == Yielded(bb.functionalGroups, None)
    ensures |GetFunctionalGroups(bb, AllGroups).items| == GetNumFunctionalGroups(bb)
  {
    var r := GetFunctionalGroups(bb, AllGroups);
    var ids := SelectedIds(|bb.functionalGroups|, AllGroups);
    assert forall k :: 0 <= k < |ids| ==> ValidIndex(|bb.functionalGroups|, ids[k]);
    assert r.items == bb.functionalGroups;
  }

  /** A single id yields exactly that group, or fails at once. */
  lemma OneGroupSelected(bb: BuildingBlock, id: int)
    ensures ValidIndex(|bb.functionalGroups|, id) ==>
      GetFunctionalGroups(bb, OneGroup(id))
      == Yielded([bb.functionalGroups[TupleIndex(|bb.functionalGroups|, id).value]], None)
    ensures !ValidIndex(|bb.functionalGroups|, id) ==>
      GetFunctionalGroups(bb, OneGroup(id)) == Yielded([], Some(IndexError(id)))
  {
  }

  /** Ids given as an iterable are served in the order given; the count of
      groups yielded is the count of ids requested when none fails. */
  lemma GivenIdsInOrder(bb: BuildingBlock, ids: seq<int>)
    requires forall k :: 0 <= k < |ids| ==> 0 <= ids[k] < |bb.functionalGroups|
    ensures GetFunctionalGroups(bb, GroupIds(ids)).raised.None?
    ensures |GetFunctionalGroups(bb, GroupIds(ids)).items| == |ids|
    ensures forall k :: 0 <= k < |ids| ==>
      GetFunctionalGroups(bb, GroupIds(ids)).items[k] == bb.functionalGroups[ids[k]]
  {
    assert forall k :: 0 <= k < |ids| ==> ValidIndex(|bb.functionalGroups|, ids[k]);
  }

  // ---------------------------------------------------------------------
  // get_core_atom_ids

  /** Ids of the atoms of all groups. */
  function GroupAtomIds(groups: seq<FunctionalGroup>): set<int>
  {
    set i, a | 0 <= i < |groups| && a in groups[i].atomIds :: a
  }

  /** The atoms of `atoms` not in `excluded`, in atom order. */
  function AtomsOutside(atoms: seq<int>, excluded: set<int>): (r: seq<int>)
    ensures forall a :: a in r <==> a in atoms && a !in excluded
    decreases |atoms|
  {
    if atoms == [] then []
    else
      var init := atoms[..|atoms| - 1];
      var last := atoms[|atoms| - 1];
      assert atoms == init + [last];
      AtomsOutside(init, excluded) + (if last in excluded then [] else [last])
  }

  /** The core atom ids of every group, group after group. */
  function CoreIdsOfGroups(groups: seq<FunctionalGroup>): (r: seq<int>)
    ensures forall a :: a in r <==> exists i :: 0 <= i < |groups| && a in groups[i].coreAtomIds
    decreases |groups|
  {
    if groups == [] then []
    else
      var init := groups[..|groups| - 1];
      var r := CoreIdsOfGroups(init) + groups[|groups| - 1].coreAtomIds;
      assert forall i :: 0 <= i < |init| ==> init[i] == groups[i];
      r
  }

  /** The first loop of `get_core_atom_ids`: the atoms outside every group,
      in atom order. */
  method CollectOutside(atoms: seq<int>, groupAtoms: set<int>) returns (ids: seq<int>)
    ensures ids == AtomsOutside(atoms, groupAtoms)
  {
    ids := [];
    var i := 0;
    while i < |atoms|
      invariant 0 <= i <= |atoms|
      invariant ids == AtomsOutside(atoms[..i], groupAtoms)
    {
      assert atoms[..i + 1][..i] == atoms[..i];
      if atoms[i] !in groupAtoms {
        ids := ids + [atoms[i]];
      }
      i := i + 1;
    }
    assert atoms[..i] == atoms;
  }

  /** The second loop: each group's core atoms, group after group. */
  method CollectCores(groups: seq<FunctionalGroup>) returns (ids: seq<int>)
    ensures ids == CoreIdsOfGroups(groups)
  {
    ids := [];
    var j := 0;
    while j < |groups|
      invariant 0 <= j <= |groups|
      invariant ids == CoreIdsOfGroups(groups[..j])
    {
      assert groups[..j + 1][..j] == groups[..j];
      ids := ids + groups[j].coreAtomIds;
      j := j + 1;
    }
    assert groups[..j] == groups;
  }

  /** `get_core_atom_ids`, as the generator runs: first every atom that is in
      no group, in atom order, then each group's core atoms, in group order. */
  method GetCoreAtomIds(bb: BuildingBlock) returns (ids: seq<int>)
    ensures ids == AtomsOutside(bb.atoms, GroupAtomIds(bb.functionalGroups))
                   + CoreIdsOfGroups(bb.functionalGroups)
    ensures forall a :: a in ids <==>
      (a in bb.atoms && forall i :: 0 <= i < |bb.functionalGroups| ==> a !in bb.functionalGroups[i].atomIds)
      || exists i :: 0 <= i < |bb.functionalGroups| && a in bb.functionalGroups[i].coreAtomIds
  {
    var outside := CollectOutside(bb.atoms, GroupAtomIds(bb.functionalGroups));
    var cores := CollectCores(bb.functionalGroups);
    ids := outside + cores;
    CoreAtomIdsMembers(bb);
  }

  /** The ids the generator yields are the atoms in no group and the core
      atoms of every group. */
  lemma CoreAtomIdsMembers(bb: BuildingBlock)
    ensures var ids := AtomsOutside(bb.atoms, GroupAtomIds(bb.functionalGroups))
                       + CoreIdsOfGroups(bb.functionalGroups);
      forall a :: a in ids <==>
        (a in bb.atoms && forall i :: 0 <= i < |bb.functionalGroups| ==> a !in bb.functionalGroups[i].atomIds)
        || exists i :: 0 <= i < |bb.functionalGroups| && a in bb.functionalGroups[i].coreAtomIds
  {
  }

  // ---------------------------------------------------------------------
  // _with_canonical_atom_ordering

  /** The canonical rank of each atom id, seen as an id map. */
  function OrderingMap(ordering: seq<int>): map<int, int>
  {
    map i | 0 <= i < |ordering| :: ordering[i]
  }

  /** The placer ids after canonical reordering: `p` becomes `ordering[p]`;
      a placer id that is not an atom position has no entry in the atom map
      and raises `KeyError`. */
  function RemapPlacerIds(ordering: seq<int>, placerIds: seq<int>): (r: Result<seq<int>, BlockError>)
    ensures r.Ok? <==> forall k :: 0 <= k < |placerIds| ==> 0 <= placerIds[k] < |ordering|
    ensures r.Ok? ==> (|r.value| == |placerIds|
      && forall k :: 0 <= k < |placerIds| ==> r.value[k] == ordering[placerIds[k]])
    ensures r.Err? ==> exists k :: (0 <= k < |placerIds| && r.error == KeyError(placerIds[k])
      && !(0 <= placerIds[k] < |ordering|)
      && forall j :: 0 <= j < k ==> 0 <= placerIds[j] < |ordering|)
    decreases |placerIds|
  {
    if placerIds == [] then Ok([])
    else if !(0 <= placerIds[0] < |ordering|) then Err(KeyError(placerIds[0]))
    else
      var rest := RemapPlacerIds(ordering, placerIds[1..]);
      if rest.Err? then
        assert forall k :: 1 <= k < |placerIds| ==> placerIds[k] == placerIds[1..][k - 1];
        rest
      else
        assert forall k :: 1 <= k < |placerIds| ==> placerIds[k] == placerIds[1..][k - 1];
        Ok([ordering[placerIds[0]]] + rest.value)
  }

  /** `_with_canonical_atom_ordering`, for the building block's own part:
      groups are remapped through the ordering with `with_atoms`, placer ids
      through `RemapPlacerIds`. Atom ids are taken to equal atom positions
      after the molecule's own reordering. */
  function WithCanonicalAtomOrdering(bb: BuildingBlock, ordering: seq<int>): (r: Result<BuildingBlock, BlockError>)
    ensures r.Ok? <==> forall k :: 0 <= k < |bb.placerIds| ==> 0 <= bb.placerIds[k] < |ordering|
    ensures r.Ok? ==> |r.value.atoms| == |bb.atoms| && forall i :: 0 <= i < |bb.atoms| ==> r.value.atoms[i] == i
    ensures r.Ok? ==> (|r.value.functionalGroups| == |bb.functionalGroups|
      && forall i :: 0 <= i < |bb.functionalGroups| ==>
           r.value.functionalGroups[i] == WithIds(bb.functionalGroups[i], OrderingMap(ordering)))
    ensures r.Ok? ==> (|r.value.placerIds| == |bb.placerIds|
      && forall k :: 0 <= k < |bb.placerIds| ==> r.value.placerIds[k] == ordering[bb.placerIds[k]])
    ensures r.Err? ==> r == Err(RemapPlacerIds(ordering, bb.placerIds).error)
  {
    var groups := seq(|bb.functionalGroups|, i requires 0 <= i < |bb.functionalGroups| =>
      WithIds(bb.functionalGroups[i], OrderingMap(ordering)));
    var placers := RemapPlacerIds(ordering, bb.placerIds);
    if placers.Err? then Err(placers.error)
    else Ok(BuildingBlock(seq(|bb.atoms|, i => i), groups, placers.value))
  }

  /** A ranking that is one-to-one on atom positions keeps distinct placer
      ids distinct. */
  lemma RemapKeepsDistinct(ordering: seq<int>, placerIds: seq<int>)
    requires forall i, j :: 0 <= i < j < |ordering| ==> ordering[i] != ordering[j]
    requires forall i, j :: 0 <= i < j < |placerIds| ==> placerIds[i] != placerIds[j]
    requires RemapPlacerIds(ordering, placerIds).Ok?
    ensures var r := RemapPlacerIds(ordering, placerIds).value;
            forall i, j :: 0 <= i < j < |r| ==> r[i] != r[j]
  {
  }

  /** Remapping by a ranking and then by its inverse gives the placer ids
      back. */
  lemma {:induction false} RemapByInverse(ordering: seq<int>, inverse: seq<int>, placerIds: seq<int>)
    requires forall i :: 0 <= i < |ordering| ==> 0 <= ordering[i] < |inverse| && inverse[ordering[i]] == i
    requires forall k :: 0 <= k < |placerIds| ==> 0 <= placerIds[k] < |ordering|
    ensures RemapPlacerIds(ordering, placerIds).Ok?
    ensures RemapPlacerIds(inverse, RemapPlacerIds(ordering, placerIds).value) == Ok(placerIds)
    decreases |placerIds|
  {
    if placerIds != [] {
      var p := placerIds[0];
      RemapByInverse(ordering, inverse, placerIds[1..]);
      var rest := RemapPlacerIds(ordering, placerIds[1..]).value;
      var once := [ordering[p]] + rest;
      assert RemapPlacerIds(ordering, placerIds) == Ok(once);
      assert once[1..] == rest;
      assert RemapPlacerIds(inverse, once) == Ok([p] + placerIds[1..]);
      assert [p] + placerIds[1..] == placerIds;
    }
  }

  // ---------------------------------------------------------------------
  // init_from_file

  /** The readers `_init_funcs` maps extensions to. */
  datatype FileReader = MolFileReader | PdbFileReader

  /** `_init_funcs`: `.mol` and `.sdf` are read as MDL MOL files, `.pdb` as
      PDB; the keys are matched exactly, case included. */
  function InitFunc(extension: string): Option<FileReader>
  {
    if extension == ".mol" || extension == ".sdf" then Some(MolFileReader)
    else if extension == ".pdb" then Some(PdbFileReader)
    else None
  }

  /** `init_from_file`: the extension chosen by `os.path.splitext` selects
      the reader, any other raises `ValueError` before the file is read. The
      reader itself is a parameter: what it finds is the molecule's atoms. */
  function InitFromFile(path: string, read: FileReader -> seq<int>, arg: GroupsArgument, placerIds: Option<seq<int>>)
    : (r: Result<BuildingBlock, BlockError>)
    ensures r.Ok? <==> Extension(path) in {".mol", ".sdf", ".pdb"}
    ensures r.Err? ==> r.error == ValueError(Extension(path))
    ensures r.Ok? && Extension(path) == ".pdb" ==> r.value.atoms == read(PdbFileReader)
    ensures r.Ok? && Extension(path) != ".pdb" ==> r.value.atoms == read(MolFileReader)
  {
    var ext := Extension(path);
    match InitFunc(ext)
    case None => Err(ValueError(ext))
    case Some(reader) => Ok(Init(read(reader), arg, placerIds))
  }

  /** A path ending in one of the supported extensions is accepted, and one
      ending in any other dotted suffix is refused. */
  lemma InitFromFileByExtension(stem: string, ext: string, read: FileReader -> seq<int>, arg: GroupsArgument)
    requires stem != [] && stem[|stem| - 1] != '.' && stem[|stem| - 1] != '/'
    requires ext != [] && ext[0] == '.' && '.' !in ext[1..] && '/' !in ext
    ensures InitFromFile(stem + ext, read, arg, None).Ok? <==> ext in {".mol", ".sdf", ".pdb"}
  {
    ExtensionOfStem(stem, ext);
  }
}
