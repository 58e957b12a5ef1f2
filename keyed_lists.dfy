/**
 * The list operations the client caches perform on records keyed by `id`
 * (frontend/src/store/commentsSlice.ts, frontend/src/store/designsSlice.ts):
 * append-if-absent, replace-in-place, prepend-or-replace and remove-by-id.
 */
module KeyedLists {
  import Json
  import Seqs

  /** A cached record: its `id` and the rest of the object as the server sent it. */
  datatype Record = Record(id: string, data: Json.Object)

  /** The ids present in a list. */
  function Ids(items: seq<Record>): set<string> {
    set i | 0 <= i < |items| :: items[i].id
  }

  lemma IdsAppend(items: seq<Record>, item: Record)
    ensures Ids(items + [item]) == Ids(items) + {item.id}
  {
    var r := items + [item];
    assert r[|items|].id == item.id;
    forall x | x in Ids(items) ensures x in Ids(r) {
      var k :| 0 <= k < |items| && items[k].id == x;
      assert r[k].id == x;
    }
  }

  lemma IdsPrepend(items: seq<Record>, item: Record)
    ensures Ids([item] + items) == Ids(items) + {item.id}
  {
    var r := [item] + items;
    assert r[0].id == item.id;
    forall x | x in Ids(items) ensures x in Ids(r) {
      var k :| 0 <= k < |items| && items[k].id == x;
      assert r[k + 1].id == x;
    }
    forall x | x in Ids(r) ensures x in Ids(items) + {item.id} {
      var k :| 0 <= k < |r| && r[k].id == x;
      if k > 0 {
        assert items[k - 1].id == x;
      }
    }
  }

  predicate UniqueIds(items: seq<Record>) {
    forall i, j :: 0 <= i < j < |items| ==> items[i].id != items[j].id
  }

  /** `items.findIndex(item => item.id === id)`. */
  function IndexOfId(items: seq<Record>, id: string): (r: int)
    ensures -1 <= r < |items|
    ensures r == -1 <==> id !in Ids(items)
    ensures r >= 0 ==> items[r].id == id && forall i :: 0 <= i < r ==> items[i].id != id
  {
    var r := Seqs.FindIndex(items, (x: Record) => x.id == id);
    assert r == -1 ==> forall i :: 0 <= i < |items| ==> items[i].id != id;
    r
  }

  /** `if (!items.some(x => x.id === item.id)) items.push(item)`. */
  function AppendIfAbsent(items: seq<Record>, item: Record): (r: seq<Record>)
    ensures item.id in Ids(items) ==> r == items
    ensures item.id !in Ids(items) ==> r == items + [item]
    ensures Ids(r) == Ids(items) + {item.id}
  {
    IdsAppend(items, item);
    if IndexOfId(items, item.id) != -1 then items else items + [item]
  }

  /** `const i = findIndex(...); if (i !== -1) items[i] = item`. */
  function ReplaceById(items: seq<Record>, item: Record): (r: seq<Record>)
    ensures |r| == |items| && Ids(r) == Ids(items)
    ensures item.id in Ids(items) ==> item in r
    ensures forall i :: 0 <= i < |items| && items[i].id != item.id ==> r[i] == items[i]
    ensures item.id !in Ids(items) ==> r == items
  {
    var i := IndexOfId(items, item.id);
    if i == -1 then items
    else
      var r := items[i := item];
      assert Ids(r) == Ids(items) by {
        forall x | x in Ids(items) ensures x in Ids(r) {
          var k :| 0 <= k < |items| && items[k].id == x;
          assert r[k].id == x;
        }
      }
      assert r[i] == item;
      r
  }

  /** The updateDesignMeta upsert: replace in place when present, otherwise `unshift`. */
  function PrependOrReplace(items: seq<Record>, item: Record): (r: seq<Record>)
    ensures item in r
    ensures Ids(r) == Ids(items) + {item.id}
    ensures |r| == |items| + (if item.id in Ids(items) then 0 else 1)
    ensures item.id in Ids(items) ==> r == ReplaceById(items, item)
    ensures item.id !in Ids(items) ==> r == [item] + items
  {
    if IndexOfId(items, item.id) != -1 then ReplaceById(items, item)
    else
      IdsPrepend(items, item);
      [item] + items
  }

  /** `items.filter(item => item.id !== id)`. */
  function RemoveById(items: seq<Record>, id: string): (r: seq<Record>)
    ensures Ids(r) == Ids(items) - {id}
    ensures |r| <= |items|
    ensures forall i :: 0 <= i < |r| ==> r[i] in items && r[i].id != id
  {
    var r := Seqs.Filter(items, (x: Record) => x.id != id);
    assert Ids(r) == Ids(items) - {id} by {
      forall x | x in Ids(items) - {id} ensures x in Ids(r) {
        var k :| 0 <= k < |items| && items[k].id == x;
        assert items[k] in r;
      }
    }
    r
  }

  // ---------------------------------------------------------------------
  // Properties.

  /** Adding the same record twice leaves one entry. */
  lemma AppendIfAbsentIdempotent(items: seq<Record>, item: Record)
    ensures AppendIfAbsent(AppendIfAbsent(items, item), item) == AppendIfAbsent(items, item)
  {
  }

  lemma AppendIfAbsentKeepsUnique(items: seq<Record>, item: Record)
    requires UniqueIds(items)
    ensures UniqueIds(AppendIfAbsent(items, item))
  {
    if item.id !in Ids(items) {
      var r := items + [item];
      forall i, j | 0 <= i < j < |r| ensures r[i].id != r[j].id {
        if j == |items| {
          assert items[i].id in Ids(items);
        }
      }
    }
  }

  lemma ReplaceByIdKeepsUnique(items: seq<Record>, item: Record)
    requires UniqueIds(items)
    ensures UniqueIds(ReplaceById(items, item))
  {
  }

  /** With unique ids, replacing leaves exactly one entry with the id: the new record, where the old one stood. */
  lemma ReplaceByIdInPlace(items: seq<Record>, item: Record)
    requires UniqueIds(items) && item.id in Ids(items)
    ensures var i := IndexOfId(items, item.id);
            ReplaceById(items, item) == items[i := item]
  {
  }

  lemma PrependOrReplaceKeepsUnique(items: seq<Record>, item: Record)
    requires UniqueIds(items)
    ensures UniqueIds(PrependOrReplace(items, item))
  {
    if item.id in Ids(items) {
      ReplaceByIdKeepsUnique(items, item);
    } else {
      var r := [item] + items;
      forall i, j | 0 <= i < j < |r| ensures r[i].id != r[j].id {
        if i == 0 {
          assert r[j] == items[j - 1];
          assert items[j - 1].id in Ids(items);
        } else {
          assert r[i] == items[i - 1] && r[j] == items[j - 1];
        }
      }
    }
  }

  /** Filtering keeps the survivors in their original relative order. */
  lemma {:induction false} RemoveByIdKeepsOrder(a: seq<Record>, b: seq<Record>, id: string)
    ensures RemoveById(a + b, id) == RemoveById(a, id) + RemoveById(b, id)
  {
    Seqs.FilterAppend(a, b, (x: Record) => x.id != id);
  }

  lemma RemoveByIdKeepsUnique(items: seq<Record>, id: string)
    requires UniqueIds(items)
    ensures UniqueIds(RemoveById(items, id))
  {
    var key := (x: Record) => x.id;
    assert Seqs.UniqueKeys(items, key) by {
      forall i, j | 0 <= i < j < |items| ensures key(items[i]) != key(items[j]) {
      }
    }
    Seqs.FilterKeepsUniqueKeys(items, (x: Record) => x.id != id, key);
    var r := RemoveById(items, id);
    forall i, j | 0 <= i < j < |r| ensures r[i].id != r[j].id {
      assert key(r[i]) != key(r[j]);
    }
  }

  /** Removing an id that is not present changes nothing. */
  lemma {:induction false} RemoveAbsentId(items: seq<Record>, id: string)
    requires id !in Ids(items)
    ensures RemoveById(items, id) == items
  {
    var p := (x: Record) => x.id != id;
    forall i | 0 <= i < |items| ensures p(items[i]) {
      assert items[i].id in Ids(items);
    }
    Seqs.FilterAll(items, p);
  }
}
