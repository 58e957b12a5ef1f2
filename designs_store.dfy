/**
 * The client's design list (frontend/src/store/designsSlice.ts): the
 * designs shown on the list page, a loading flag and the last fetch error.
 * Each extra reducer is a method that mutates the store in place.
 */
module DesignsSlice {
  import opened Wrappers
  import opened KeyedLists

  /** `items.unshift(design)`: the design goes first and the old items follow in their order. */
  function Unshift(items: seq<Record>, design: Record): (r: seq<Record>)
    ensures |r| == |items| + 1 && r[0] == design && r[1..] == items
    ensures Ids(r) == Ids(items) + {design.id}
  {
    IdsPrepend(items, design);
    [design] + items
  }

  class DesignsStore {
    var items: seq<Record>
    var loading: bool
    var error: Option<string>

    constructor ()
      ensures items == [] && !loading && error == None
    {
      items := [];
      loading := false;
      error := None;
    }

    method FetchPending()
      modifies this
      ensures loading && error == None && items == old(items)
    {
      loading := true;
      error := None;
    }

    method FetchFulfilled(fetched: seq<Record>)
      modifies this
      ensures !loading && items == fetched && error == old(error)
    {
      loading := false;
      items := fetched;
    }

    method FetchRejected(message: Option<string>)
      modifies this
      ensures !loading && error == message && items == old(items)
    {
      loading := false;
      error := message;
    }

    /** `createDesign.fulfilled`: `unshift` the new design, with no duplicate check. */
    method CreateFulfilled(design: Record)
      modifies this
      ensures items == Unshift(old(items), design)
      ensures loading == old(loading) && error == old(error)
    {
      items := [design] + items;
    }

    /** `updateDesignMeta.fulfilled`: replace in place when the id is present, otherwise prepend. */
    method UpdateMetaFulfilled(design: Record)
      modifies this
      ensures items == PrependOrReplace(old(items), design)
      ensures loading == old(loading) && error == old(error)
    {
      var index := IndexOfId(items, design.id);
      if index != -1 {
        items := items[index := design];
      } else {
        items := [design] + items;
      }
    }

    /** `deleteDesign.fulfilled`: keep every design whose id differs from the deleted one. */
    method DeleteFulfilled(id: string)
      modifies this
      ensures items == RemoveById(old(items), id)
      ensures loading == old(loading) && error == old(error)
    {
      items := RemoveById(items, id);
    }
  }

  /** If ids are unique beforehand, updateDesignMeta and deleteDesign keep them unique. */
  lemma ReducersKeepUniqueIds(items: seq<Record>, design: Record, id: string)
    requires UniqueIds(items)
    ensures UniqueIds(PrependOrReplace(items, design))
    ensures UniqueIds(RemoveById(items, id))
  {
    PrependOrReplaceKeepsUnique(items, design);
    RemoveByIdKeepsUnique(items, id);
  }

  /** Prepending keeps the ids unique exactly when the new design's id is not listed yet. */
  lemma UnshiftKeepsUniqueIff(items: seq<Record>, design: Record)
    requires UniqueIds(items)
    ensures UniqueIds(Unshift(items, design)) <==> design.id !in Ids(items)
  {
    var r := Unshift(items, design);
    if design.id in Ids(items) {
      var k :| 0 <= k < |items| && items[k].id == design.id;
      assert r[k + 1] == items[k];
    } else {
      forall i, j | 0 <= i < j < |r| ensures r[i].id != r[j].id {
        assert r[j] == items[j - 1];
        if i > 0 {
          assert r[i] == items[i - 1];
        } else {
          assert items[j - 1].id in Ids(items);
        }
      }
    }
  }

  /** createDesign does not check for duplicates: creating the same record twice lists it twice. */
  lemma CreateTwiceDuplicates(items: seq<Record>, design: Record)
    ensures var r := Unshift(Unshift(items, design), design);
            |r| == |items| + 2 && r[0] == r[1] && !UniqueIds(r)
  {
    var once := Unshift(items, design);
    assert once[0] == design;
  }
}
