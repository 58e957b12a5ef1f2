/**
 * The migration that gives every design without an owner the shared legacy
 * owner (backend/migrations/20251107200000_backfill_design_owner.js).
 *
 * The `designs` collection is a sequence of documents, each a JSON object.
 * A document's `_id` is unique in the collection, so an `updateOne` filtered
 * by `_id` reaches exactly the document the cursor produced; the model
 * records that document by its position.
 */
module BackfillMigration {
  import opened Json

  const LEGACY_OWNER_ID := "legacy-shared"
  const LEGACY_OWNER_NAME := "Legacy Workspace"

  /** The `up` filter: `ownerId` missing, `null` or `''`. */
  predicate NeedsOwner(d: Object) {
    "ownerId" !in d || d["ownerId"] == Null || d["ownerId"] == Str("")
  }

  /** One queued `updateOne`: the document's position and the `$set` of `ownerId` and `ownerName`. */
  datatype UpdateOp = UpdateOp(index: nat, ownerName: Value)

  /** The operation the cursor loop queues for a selected document. */
  function OpFor(d: Object, index: nat): UpdateOp {
    UpdateOp(index, Coalesce(d, "ownerName", Str(LEGACY_OWNER_NAME)))
  }

  /** The operations queued after the cursor has passed the first `n` documents. */
  function Operations(docs: seq<Object>, n: nat): (ops: seq<UpdateOp>)
    requires n <= |docs|
    ensures |ops| <= n
    ensures forall k :: 0 <= k < |ops| ==> ops[k].index < n
  {
    if n == 0 then []
    else Operations(docs, n - 1) + (if NeedsOwner(docs[n - 1]) then [OpFor(docs[n - 1], n - 1)] else [])
  }

  /** `$set: { ownerId, ownerName }` on one document. */
  function SetOwner(d: Object, ownerName: Value): Object {
    d["ownerId" := Str(LEGACY_OWNER_ID)]["ownerName" := ownerName]
  }

  function Apply(docs: seq<Object>, op: UpdateOp): seq<Object> {
    if op.index < |docs| then docs[op.index := SetOwner(docs[op.index], op.ownerName)] else docs
  }

  /** `bulkWrite(operations)`, in queue order. */
  function ApplyAll(docs: seq<Object>, ops: seq<UpdateOp>): (r: seq<Object>)
    ensures |r| == |docs|
  {
    if ops == [] then docs else Apply(ApplyAll(docs, ops[..|ops| - 1]), ops[|ops| - 1])
  }

  /** What `up` does to one document. */
  function Backfill(d: Object): (r: Object)
    ensures NeedsOwner(d) ==> (
      && r.Keys == d.Keys + {"ownerId", "ownerName"}
      && r["ownerId"] == Str(LEGACY_OWNER_ID)
      && r["ownerName"] == (if "ownerName" in d && d["ownerName"] != Null then d["ownerName"] else Str(LEGACY_OWNER_NAME))
      && (forall k :: k in d && k != "ownerId" && k != "ownerName" ==> r[k] == d[k]))
    ensures !NeedsOwner(d) ==> r == d
    ensures !NeedsOwner(r)
  {
    if NeedsOwner(d) then SetOwner(d, OpFor(d, 0).ownerName) else d
  }

  function Up(docs: seq<Object>): (r: seq<Object>)
    ensures |r| == |docs|
    ensures forall i :: 0 <= i < |docs| ==> r[i] == Backfill(docs[i])
  {
    seq(|docs|, i requires 0 <= i < |docs| => Backfill(docs[i]))
  }

  /** What `down` does to one document: `$unset` both owner fields when the owner is the legacy one. */
  function Unbackfill(d: Object): (r: Object)
    ensures ("ownerId" in d && d["ownerId"] == Str(LEGACY_OWNER_ID)) ==> r == d - {"ownerId", "ownerName"}
    ensures !("ownerId" in d && d["ownerId"] == Str(LEGACY_OWNER_ID)) ==> r == d
  {
    if "ownerId" in d && d["ownerId"] == Str(LEGACY_OWNER_ID) then d - {"ownerId", "ownerName"} else d
  }

  function Down(docs: seq<Object>): (r: seq<Object>)
    ensures |r| == |docs|
    ensures forall i :: 0 <= i < |docs| ==> r[i] == Unbackfill(docs[i])
  {
    seq(|docs|, i requires 0 <= i < |docs| => Unbackfill(docs[i]))
  }

  // ---------------------------------------------------------------------
  // Properties.

  /**
   * Writing the operations queued for the first `n` documents backfills
   * exactly the selected ones among them and leaves every other document.
   */
  lemma {:induction false} OperationsApply(docs: seq<Object>, n: nat)
    requires n <= |docs|
    ensures forall j :: 0 <= j < n ==> ApplyAll(docs, Operations(docs, n))[j] == Backfill(docs[j])
    ensures forall j :: n <= j < |docs| ==> ApplyAll(docs, Operations(docs, n))[j] == docs[j]
  {
    if n > 0 {
      OperationsApply(docs, n - 1);
      var prev := Operations(docs, n - 1);
      var d := docs[n - 1];
      if NeedsOwner(d) {
        var op := OpFor(d, n - 1);
        assert Operations(docs, n) == prev + [op];
        ApplyAllSnoc(docs, prev, op);
        assert SetOwner(d, op.ownerName) == Backfill(d);
      } else {
        assert Operations(docs, n) == prev;
        assert Backfill(d) == d;
      }
    }
  }

  /** Applying one more queued operation. */
  lemma ApplyAllSnoc(docs: seq<Object>, ops: seq<UpdateOp>, op: UpdateOp)
    ensures ApplyAll(docs, ops + [op]) == Apply(ApplyAll(docs, ops), op)
  {
    assert (ops + [op])[..|ops|] == ops;
  }

  /** The number of documents `up` selects. */
  function Selected(docs: seq<Object>): (n: nat)
    ensures n <= |docs|
  {
    if docs == [] then 0 else Selected(docs[..|docs| - 1]) + (if NeedsOwner(docs[|docs| - 1]) then 1 else 0)
  }

  lemma {:induction false} OperationsCount(docs: seq<Object>, n: nat)
    requires n <= |docs|
    ensures |Operations(docs, n)| == Selected(docs[..n])
  {
    if n > 0 {
      OperationsCount(docs, n - 1);
      assert docs[..n][..n - 1] == docs[..n - 1];
    }
  }
  /** One more document scanned: its operation, if any, joins the queue. */
  lemma OperationsStep(docs: seq<Object>, i: nat)
    requires i < |docs|
    ensures Operations(docs, i + 1) == Operations(docs, i) + (if NeedsOwner(docs[i]) then [OpFor(docs[i], i)] else [])
  {
  }

  /** One more operation applied. */
  lemma ApplyAllStep(docs: seq<Object>, ops: seq<UpdateOp>, k: nat)
    requires k < |ops|
    ensures ApplyAll(docs, ops[..k + 1]) == Apply(ApplyAll(docs, ops[..k]), ops[k])
  {
    assert ops[..k + 1][..k] == ops[..k];
  }

  /** The queued operations, applied in order, perform `up`, and there is one per selected document. */
  lemma OperationsGiveUp(docs: seq<Object>)
    ensures ApplyAll(docs, Operations(docs, |docs|)) == Up(docs)
    ensures |Operations(docs, |docs|)| == Selected(docs)
  {
    OperationsApply(docs, |docs|);
    OperationsCount(docs, |docs|);
    assert docs[..|docs|] == docs;
  }


  /** `up` selects a document iff it lacks a real owner; other documents are untouched. */
  lemma UpSelectsExactly(docs: seq<Object>, i: nat)
    requires i < |docs|
    ensures Up(docs)[i] != docs[i] <==> NeedsOwner(docs[i])
  {
    if NeedsOwner(docs[i]) {
      assert Up(docs)[i]["ownerId"] == Str(LEGACY_OWNER_ID);
    }
  }

  /** No document lacks an owner after `up`. */
  lemma {:induction false} NoneSelectedAfterUp(docs: seq<Object>)
    ensures Selected(Up(docs)) == 0
  {
    if docs != [] {
      assert Up(docs)[..|docs| - 1] == Up(docs[..|docs| - 1]);
      NoneSelectedAfterUp(docs[..|docs| - 1]);
    }
  }

  /** Running `up` a second time changes nothing. */
  lemma UpIdempotent(docs: seq<Object>)
    ensures Up(Up(docs)) == Up(docs)
  {
  }

  /** `down` after `up` removes both owner fields from every backfilled document, whatever it held before. */
  lemma DownAfterUp(docs: seq<Object>, i: nat)
    requires i < |docs| && NeedsOwner(docs[i])
    ensures Down(Up(docs))[i] == docs[i] - {"ownerId", "ownerName"}
  {
  }

  /** So `down` is not an inverse: a null owner and a kept owner name are both lost. */
  lemma DownIsNotInverse()
    ensures var d := map["ownerId" := Null, "ownerName" := Str("Ada")];
      Down(Up([d])) == [map[]] && Down(Up([d])) != [d]
  {
    var d: Object := map["ownerId" := Null, "ownerName" := Str("Ada")];
    assert d - {"ownerId", "ownerName"} == map[];
    DownAfterUp([d], 0);
    assert "ownerId" in d;
  }

  /** The `designs` collection. */
  class DesignCollection {
    var docs: seq<Object>

    constructor (docs: seq<Object>)
      ensures this.docs == docs
    {
      this.docs := docs;
    }

    /** `up`: a cursor loop queues one update per selected document, then one `bulkWrite` applies them. */
    method MigrateUp() returns (written: nat)
      modifies this
      ensures docs == Up(old(docs))
      ensures written == Selected(old(docs))
    {
      var current := docs;
      var operations: seq<UpdateOp> := [];
      var i := 0;
      while i < |current|
        invariant i <= |current|
        invariant operations == Operations(current, i)
      {
        OperationsStep(current, i);
        if NeedsOwner(current[i]) {
          operations := operations + [OpFor(current[i], i)];
        }
        i := i + 1;
      }
      OperationsGiveUp(current);
      ghost var before := current;
      var k := 0;
      while k < |operations|
        invariant k <= |operations|
        invariant current == ApplyAll(before, operations[..k])
      {
        ApplyAllStep(before, operations, k);
        current := Apply(current, operations[k]);
        k := k + 1;
      }
      assert operations[..k] == operations;
      docs := current;
      written := |operations|;
    }

    /** `down`: one `updateMany` over the legacy-owned documents. */
    method MigrateDown()
      modifies this
      ensures docs == Down(old(docs))
    {
      docs := Down(docs);
    }
  }
}
