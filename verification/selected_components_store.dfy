/**
 The per-platform selection store: a map from platform id to the list of
 component ids selected for it. A platform without an entry reads as an empty
 list; platform ids are the numeric id strings the pages use, never the name
 of a member every JavaScript object inherits.
 */
module SelectedComponents {
  import opened Records

  type Selection = map<string, seq<string>>

  function Same(id: string): string { id }

  /** `selected[platformId] || []`: the platform's list, or empty when it has no entry. */
  function Current(selected: Selection, platformId: string): seq<string>
  {
    if platformId in selected then selected[platformId] else []
  }

  /**
   The list after toggling componentId: if it is present, every occurrence
   goes and the rest stay in order; if it is absent, it is appended.
   */
  function Toggled(ids: seq<string>, componentId: string): (r: seq<string>)
    ensures componentId !in ids ==> r == ids + [componentId]
    ensures componentId in ids ==> componentId !in r && |r| < |ids|
    ensures componentId in ids ==> forall c :: c != componentId ==> multiset(r)[c] == multiset(ids)[c]
    ensures componentId in ids ==> r == FilterOut(ids, Same, componentId)
  {
    if componentId in ids then
      assert multiset(ids)[componentId] > 0;
      assert |FilterOut(ids, Same, componentId)| < |ids| by {
        assert Keys(ids, Same) == ids;
        assert CountMatching(ids, Same, componentId) > 0;
      }
      FilterOut(ids, Same, componentId)
    else ids + [componentId]
  }

  /** Toggling an absent id twice restores the list. */
  lemma ToggleTwiceRestores(ids: seq<string>, componentId: string)
    requires componentId !in ids
    ensures Toggled(Toggled(ids, componentId), componentId) == ids
  {
    FilterOutAppend(ids, [componentId], Same, componentId);
    assert FilterOut([componentId], Same, componentId) == [];
  }

  /** A list without repeats keeps having none after a toggle. */
  lemma ToggleKeepsNoDuplicates(ids: seq<string>, componentId: string)
    requires NoDuplicates(ids)
    ensures NoDuplicates(Toggled(ids, componentId))
  {
    if componentId in ids {
      FilterOutNoDuplicates(ids, Same, componentId);
    } else {
      var r := ids + [componentId];
      forall i, j | 0 <= i < j < |r| ensures r[i] != r[j] {
        if j == |ids| { assert r[i] == ids[i]; }
        else { assert r[i] == ids[i] && r[j] == ids[j]; }
      }
    }
  }

  /** The first toggle on a platform without an entry selects exactly that component. */
  lemma FirstToggleSelectsOne(selected: Selection, platformId: string, componentId: string)
    requires platformId !in selected
    ensures Toggled(Current(selected, platformId), componentId) == [componentId]
  {
  }

  class Store {
    var selected: Selection

    constructor ()
      ensures selected == map[]
    {
      selected := map[];
    }

    method ToggleComponent(platformId: string, componentId: string)
      modifies this
      ensures selected == old(selected)[platformId := Toggled(Current(old(selected), platformId), componentId)]
      ensures forall p :: p != platformId ==> (p in selected <==> p in old(selected))
      ensures forall p :: p != platformId && p in old(selected) ==> selected[p] == old(selected)[p]
    {
      var current := Current(selected, platformId);
      var isSelected := componentId in current;
      selected := selected[platformId := if isSelected then FilterOut(current, Same, componentId) else current + [componentId]];
    }

    method SetSelectedComponents(components: Selection)
      modifies this
      ensures selected == components
    {
      selected := components;
    }

    method ClearSelectedComponents(platformId: string)
      modifies this
      ensures platformId in selected && selected[platformId] == []
      ensures selected.Keys == old(selected).Keys + {platformId}
      ensures forall p :: p != platformId && p in old(selected) ==> selected[p] == old(selected)[p]
    {
      selected := selected[platformId := []];
    }
  }
}
