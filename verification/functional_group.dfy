/**
 A functional group reduced to the ids of its atoms, and its `with_ids`
 remapping, whose contract is the one the `with_ids` test checks.
 */
module FunctionalGroups {
  import opened Results

  /** A functional group: the ids of all its atoms, of its placer atoms and
      of its core atoms, each in the order the group holds them. */
  datatype FunctionalGroup = FunctionalGroup(
    atomIds: seq<int>,
    placerIds: seq<int>,
    coreAtomIds: seq<int>)

  /** The id that `id` becomes under `idMap`: mapped when it is a key, kept
      otherwise. */
  function MapId(idMap: map<int, int>, id: int): int
  {
    if id in idMap then idMap[id] else id
  }

  /** Every id of `ids` passed once through `idMap`. */
  function Substitute(idMap: map<int, int>, ids: seq<int>): (r: seq<int>)
    ensures |r| == |ids|
    ensures forall k :: 0 <= k < |ids| ==> r[k] == MapId(idMap, ids[k])
    decreases |ids|
  {
    if ids == [] then [] else [MapId(idMap, ids[0])] + Substitute(idMap, ids[1..])
  }

  /** `FunctionalGroup.with_ids(id_map)`: a new group whose three id
      sequences are remapped through `idMap`; the group it is called on is a
      value and stays as it was. */
  function WithIds(fg: FunctionalGroup, idMap: map<int, int>): (r: FunctionalGroup)
    ensures IsModifiedIdSequence(fg.atomIds, r.atomIds, idMap)
    ensures IsModifiedIdSequence(fg.placerIds, r.placerIds, idMap)
    ensures IsModifiedIdSequence(fg.coreAtomIds, r.coreAtomIds, idMap)
  {
    var r := FunctionalGroup(
      Substitute(idMap, fg.atomIds),
      Substitute(idMap, fg.placerIds),
      Substitute(idMap, fg.coreAtomIds));
    ModifiedIdSequenceIff(fg.atomIds, r.atomIds, idMap);
    ModifiedIdSequenceIff(fg.placerIds, r.placerIds, idMap);
    ModifiedIdSequenceIff(fg.coreAtomIds, r.coreAtomIds, idMap);
    r
  }

  // ---------------------------------------------------------------------
  // The test's check, as the test writes it

  /** One pair of `zip_longest(ids1, ids2)`: `None` is the fill value for
      the shorter sequence. An id that is a key must have become its image;
      anything else, the fill value included, must be unchanged. */
  predicate PairPasses(id1: Option<int>, id2: Option<int>, idMap: map<int, int>)
  {
    if id1.Some? && id1.value in idMap then id2 == Some(idMap[id1.value])
    else id2 == id1
  }

  function Head(ids: seq<int>): Option<int>
  {
    if ids == [] then None else Some(ids[0])
  }

  function Rest(ids: seq<int>): seq<int>
  {
    if ids == [] then [] else ids[1..]
  }

  /** `is_modified_id_sequence(ids1, ids2, id_map)`: every pair that
      `zip_longest` produces passes. */
  predicate IsModifiedIdSequence(ids1: seq<int>, ids2: seq<int>, idMap: map<int, int>)
    decreases |ids1| + |ids2|
  {
    if ids1 == [] && ids2 == [] then true
    else
      PairPasses(Head(ids1), Head(ids2), idMap)
      && IsModifiedIdSequence(Rest(ids1), Rest(ids2), idMap)
  }

  /** The test's check holds exactly when the second sequence is the first
      passed once through the map: same length, and position by position
      the mapped id or the unchanged one. */
  lemma {:induction false} ModifiedIdSequenceIff(ids1: seq<int>, ids2: seq<int>, idMap: map<int, int>)
    ensures IsModifiedIdSequence(ids1, ids2, idMap) <==> ids2 == Substitute(idMap, ids1)
    decreases |ids1| + |ids2|
  {
    if ids1 == [] && ids2 == [] {
    } else if ids1 == [] {
      assert !PairPasses(Head(ids1), Head(ids2), idMap);
    } else if ids2 == [] {
      assert !PairPasses(Head(ids1), Head(ids2), idMap);
    } else {
      ModifiedIdSequenceIff(ids1[1..], ids2[1..], idMap);
      var s := Substitute(idMap, ids1);
      assert s == [MapId(idMap, ids1[0])] + Substitute(idMap, ids1[1..]);
      if ids2 == s {
        assert ids2[1..] == Substitute(idMap, ids1[1..]);
      }
      if IsModifiedIdSequence(ids1, ids2, idMap) {
        assert ids2 == [ids2[0]] + ids2[1..];
      }
    }
  }

  // ---------------------------------------------------------------------
  // Properties of the remapping

  /** The map that sends each id where `first` and then `second` send it. */
  function Compose(first: map<int, int>, second: map<int, int>): (m: map<int, int>)
    ensures forall id :: MapId(m, id) == MapId(second, MapId(first, id))
  {
    map id | id in first.Keys + second.Keys :: MapId(second, MapId(first, id))
  }

  /** Remapping twice is remapping once through the composed map; one
      remapping is therefore one pass, and a mapped id becomes `idMap[id]`,
      not `idMap[idMap[id]]`, unless the two agree. */
  lemma SubstituteTwice(first: map<int, int>, second: map<int, int>, ids: seq<int>)
    ensures Substitute(second, Substitute(first, ids)) == Substitute(Compose(first, second), ids)
  {
  }

  /** With an id map that already sends some mapped id on again, `with_ids`
      stops after the first step. */
  lemma {:induction false} WithIdsIsSinglePass(fg: FunctionalGroup, idMap: map<int, int>, k: nat)
    requires k < |fg.atomIds|
    requires fg.atomIds[k] in idMap && idMap[fg.atomIds[k]] in idMap
    requires idMap[idMap[fg.atomIds[k]]] != idMap[fg.atomIds[k]]
    ensures WithIds(fg, idMap).atomIds[k] == idMap[fg.atomIds[k]]
    ensures WithIds(fg, idMap).atomIds[k] != idMap[idMap[fg.atomIds[k]]]
  {
    var r := WithIds(fg, idMap);
    ModifiedIdSequenceIff(fg.atomIds, r.atomIds, idMap);
  }

  /** An empty map leaves every id sequence as it was. */
  lemma {:induction false} WithEmptyMap(fg: FunctionalGroup)
    ensures WithIds(fg, map[]) == fg
  {
    var r := WithIds(fg, map[]);
    ModifiedIdSequenceIff(fg.atomIds, r.atomIds, map[]);
    ModifiedIdSequenceIff(fg.placerIds, r.placerIds, map[]);
    ModifiedIdSequenceIff(fg.coreAtomIds, r.coreAtomIds, map[]);
  }

  /** A map that sends each of its keys to itself changes nothing; this is
      the map a building block uses when it rebinds groups to its own atoms. */
  lemma FixedMapIsIdentity(fg: FunctionalGroup, idMap: map<int, int>)
    requires forall id :: id in idMap ==> idMap[id] == id
    ensures WithIds(fg, idMap) == fg
  {
    var r := WithIds(fg, idMap);
    assert r.atomIds == fg.atomIds;
    assert r.placerIds == fg.placerIds;
    assert r.coreAtomIds == fg.coreAtomIds;
  }
}
