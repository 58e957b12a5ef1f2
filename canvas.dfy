/**
 * The canvas editing store (frontend/src/store/canvasSlice.ts).
 *
 * The store keeps the open design's element list, whose zIndex is kept equal
 * to position, a bounded undo history of element snapshots, a redo stack and
 * a version counter. `CanvasState` and one function per reducer specify the
 * store; the class `Canvas` holds the same fields and applies each reducer
 * step by step, mutating in place as the source's reducers do.
 */
module CanvasStore {
  import opened Wrappers
  import opened Json
  import opened Elements

  const MAX_HISTORY: nat := 20

  /** The part of a loaded design the store reads. */
  datatype Design = Design(id: string, name: string, width: real, height: real, elements: seq<Element>)

  datatype ReorderOp = Forward | Backward | Front | Back

  datatype CanvasState = CanvasState(
    designId: Option<string>,
    name: string,
    width: real,
    height: real,
    elements: seq<Element>,
    selectedId: Option<Value>,
    loading: bool,
    dirty: bool,
    history: seq<seq<Element>>,
    future: seq<seq<Element>>,
    version: int)

  const INITIAL_STATE: CanvasState :=
    CanvasState(None, "Untitled", 1080.0, 1080.0, [], None, false, false, [], [], 0)

  // ---------------------------------------------------------------------
  // List helpers.

  /** `splice(i, 1)`: the list without position `i`. */
  function RemoveAt<T>(s: seq<T>, i: nat): (r: seq<T>)
    requires i < |s|
    ensures |r| == |s| - 1
    ensures forall k :: 0 <= k < i ==> r[k] == s[k]
    ensures forall k :: i <= k < |r| ==> r[k] == s[k + 1]
  {
    s[..i] + s[i + 1..]
  }

  /** Take the element at `from` out and insert it at `to` (the two `splice` calls of reorder). */
  function Move<T>(s: seq<T>, from: nat, to: nat): (r: seq<T>)
    requires from < |s| && to < |s|
    ensures |r| == |s|
    ensures r[to] == s[from]
    ensures RemoveAt(r, to) == RemoveAt(s, from)
  {
    var rest := RemoveAt(s, from);
    var r := rest[..to] + [s[from]] + rest[to..];
    assert RemoveAt(r, to) == rest;
    r
  }

  /** Moving keeps the same multiset of elements. */
  lemma MoveIsPermutation<T>(s: seq<T>, from: nat, to: nat)
    requires from < |s| && to < |s|
    ensures multiset(Move(s, from, to)) == multiset(s)
  {
    var x := s[from];
    var rest := RemoveAt(s, from);
    var m := Move(s, from, to);
    assert m == rest[..to] + [x] + rest[to..];
    assert rest == rest[..to] + rest[to..];
    assert s == s[..from] + [x] + s[from + 1..];
    calc {
      multiset(m);
      multiset(rest[..to]) + multiset([x]) + multiset(rest[to..]);
      multiset(rest) + multiset([x]);
      multiset(s[..from]) + multiset(s[from + 1..]) + multiset([x]);
      multiset(s[..from]) + multiset([x]) + multiset(s[from + 1..]);
      multiset(s);
    }
  }

  /** `history.push(snap)` followed by `shift()` when the list grew past MAX_HISTORY. */
  function PushBounded(h: seq<seq<Element>>, snap: seq<Element>): (r: seq<seq<Element>>)
    ensures |r| >= 1 && r[|r| - 1] == snap
    ensures |h| < MAX_HISTORY ==> r == h + [snap]
    ensures |h| >= MAX_HISTORY ==> r == h[1..] + [snap]
  {
    var pushed := h + [snap];
    if |pushed| > MAX_HISTORY then pushed[1..] else pushed
  }

  /** What the store does with a list of incoming elements: defaults, then zIndex = position. */
  function Prepared(raw: seq<Element>): (r: seq<Element>)
    ensures |r| == |raw| && ZIndexed(r)
    ensures forall i, k :: 0 <= i < |raw| && k in raw[i] && k != "zIndex" ==> k in r[i] && r[i][k] == raw[i][k]
  {
    var withDefaults := seq(|raw|, i requires 0 <= i < |raw| => WithElementDefaults(raw[i]));
    CloneElementsIdentity(NormalizeZIndices(withDefaults));
    CloneElements(NormalizeZIndices(withDefaults))
  }

  /** The selection an added element gets: its id, or nothing when the id is null or undefined. */
  function IdOf(e: Element): Option<Value> {
    if "id" in e && e["id"] != Null then Some(e["id"]) else None
  }

  // ---------------------------------------------------------------------
  // The reducers as functions.

  /** `commitHistory`: push the normalised elements unless they equal the last snapshot; a push empties the redo stack. */
  function CommitHistory(s: CanvasState): (c: CanvasState)
    ensures c.(history := s.history, future := s.future) == s
    ensures var snap := NormalizeZIndices(s.elements);
            if |s.history| > 0 && s.history[|s.history| - 1] == snap then c == s
            else c.history == PushBounded(s.history, snap) && c.future == []
  {
    var snap := NormalizeZIndices(CloneElements(s.elements));
    CloneElementsIdentity(s.elements);
    if |s.history| > 0 && s.history[|s.history| - 1] == snap then s
    else s.(history := PushBounded(s.history, snap), future := [])
  }

  /** The bookkeeping of every local edit: the design is dirty and its version moves on by one. */
  function Touched(s: CanvasState): CanvasState {
    s.(dirty := true, version := s.version + 1)
  }

  function SetLoading(s: CanvasState, loading: bool): CanvasState {
    s.(loading := loading)
  }

  /** `setDesign`: elements survive only a reload of the same design with local edits (version > 0). */
  function SetDesign(s: CanvasState, d: Design): CanvasState {
    var preserve := s.designId == Some(d.id) && s.version > 0;
    var base := s.(designId := Some(d.id), name := d.name, width := d.width, height := d.height,
                   selectedId := None, dirty := false);
    if !preserve then
      var elements := Prepared(d.elements);
      base.(elements := elements, history := [CloneElements(elements)], future := [], version := 0)
    else if |s.history| == 0 then base.(history := [CloneElements(s.elements)])
    else base
  }

  function SetName(s: CanvasState, name: string): CanvasState {
    s.(name := name, dirty := true)
  }

  function SetDimensions(s: CanvasState, width: real, height: real): CanvasState {
    s.(width := width, height := height, dirty := true)
  }

  function SelectElement(s: CanvasState, id: Option<string>): CanvasState {
    s.(selectedId := if id.Some? then Some(Str(id.value)) else None)
  }

  /** The element `addElement` appends: the raw element with defaults and zIndex = old length. */
  function AddedElement(s: CanvasState, raw: Element): Element {
    WithElementDefaults(raw)["zIndex" := Num(|s.elements| as real)]
  }

  function AddElement(s: CanvasState, raw: Element): CanvasState {
    var e := AddedElement(s, raw);
    CommitHistory(Touched(s.(elements := s.elements + [e], selectedId := IdOf(e))))
  }

  function UpdateElement(s: CanvasState, id: string, changes: Object): CanvasState {
    var i := FindElementIndex(s.elements, id);
    if i == -1 then s
    else CommitHistory(Touched(s.(elements := s.elements[i := s.elements[i] + changes])))
  }

  function ReplaceElements(s: CanvasState, raw: seq<Element>): CanvasState {
    CommitHistory(Touched(s.(elements := Prepared(raw))))
  }

  function RemoveElement(s: CanvasState, id: string): CanvasState {
    var i := FindElementIndex(s.elements, id);
    if i == -1 then s
    else
      var selected := if s.selectedId == Some(Str(id)) then None else s.selectedId;
      CommitHistory(Touched(s.(elements := NormalizeZIndices(RemoveAt(s.elements, i)), selectedId := selected)))
  }

  /** Where `reorderElement` moves the element at `index`, or `None` for the no-op cases. */
  function ReorderTarget(op: ReorderOp, index: nat, lastIndex: nat): (r: Option<nat>)
    requires index <= lastIndex
    ensures r.Some? ==> r.value <= lastIndex && r.value != index
    ensures r.None? <==> ((op.Forward? || op.Front?) && index == lastIndex) || ((op.Backward? || op.Back?) && index == 0)
  {
    match op
    case Forward => if index == lastIndex then None else Some(index + 1)
    case Backward => if index == 0 then None else Some(index - 1)
    case Front => if index == lastIndex then None else Some(lastIndex)
    case Back => if index == 0 then None else Some(0)
  }

  /** The list `reorderElement` builds (clone, find, move, renumber), or `None` where it returns early. */
  function ReorderedList(es: seq<Element>, id: string, op: ReorderOp): Option<seq<Element>> {
    var current := CloneElements(es);
    var i := FindElementIndex(current, id);
    if i == -1 then None
    else
      match ReorderTarget(op, i, |current| - 1)
      case None => None
      case Some(t) => Some(NormalizeZIndices(Move(current, i, t)))
  }

  function ReorderElement(s: CanvasState, id: string, op: ReorderOp): CanvasState {
    match ReorderedList(s.elements, id, op)
    case None => s
    case Some(es) => CommitHistory(Touched(s.(elements := es)))
  }

  /** `reorderElement` returns early when the id is missing or the move goes nowhere. */
  lemma ReorderListNoop(es: seq<Element>, id: string, op: ReorderOp)
    requires var i := FindElementIndex(es, id);
             i == -1 || ReorderTarget(op, i, |es| - 1).None?
    ensures ReorderedList(es, id, op) == None
  {
    CloneElementsIdentity(es);
  }

  /** Otherwise it moves the element from `i` to `t` and renumbers (the clone equals its input). */
  lemma ReorderListMoves(es: seq<Element>, id: string, op: ReorderOp, i: nat, t: nat)
    requires i == FindElementIndex(es, id)
    requires ReorderTarget(op, i, |es| - 1) == Some(t)
    ensures ReorderedList(es, id, op) == Some(NormalizeZIndices(Move(es, i, t)))
  {
    CloneElementsIdentity(es);
  }

  /** The state `reorderElement` commits when the element at `i` moves to `t`. */
  lemma ReorderCommitsMove(s: CanvasState, id: string, op: ReorderOp, i: nat, t: nat, es: seq<Element>)
    requires i == FindElementIndex(s.elements, id)
    requires ReorderTarget(op, i, |s.elements| - 1) == Some(t)
    requires es == NormalizeZIndices(Move(s.elements, i, t))
    ensures ReorderElement(s, id, op) == CommitHistory(Touched(s.(elements := es, selectedId := s.selectedId)))
  {
    ReorderListMoves(s.elements, id, op, i, t);
  }

  function Undo(s: CanvasState): CanvasState {
    if |s.history| <= 1 then s
    else
      var n := |s.history|;
      var h := s.history[..n - 1];
      Touched(s.(history := h, future := [s.history[n - 1]] + s.future, elements := CloneElements(h[n - 2])))
  }

  function Redo(s: CanvasState): CanvasState {
    if |s.future| == 0 then s
    else
      var next := s.future[0];
      Touched(s.(future := s.future[1..], elements := CloneElements(next),
                 history := PushBounded(s.history, CloneElements(next))))
  }

  function MarkSaved(s: CanvasState): CanvasState {
    s.(dirty := false)
  }

  /** `applyRemoteUpdate`: take a peer's elements and version; history, redo stack and dirty are untouched. */
  function ApplyRemoteUpdate(s: CanvasState, elements: seq<Element>, version: int): CanvasState {
    s.(elements := Prepared(elements), version := version)
  }

  // ---------------------------------------------------------------------
  // Invariant and properties.

  /** Every snapshot is normalised, history is bounded, and a loaded design always has a history. */
  predicate Inv(s: CanvasState) {
    HistoryInv(s.designId, s.history, s.future)
  }

  predicate HistoryInv(designId: Option<string>, history: seq<seq<Element>>, future: seq<seq<Element>>) {
    && |history| <= MAX_HISTORY
    && (forall i :: 0 <= i < |history| ==> ZIndexed(history[i]))
    && (forall i :: 0 <= i < |future| ==> ZIndexed(future[i]))
    && (designId.Some? ==> |history| >= 1)
  }

  lemma InitialInv()
    ensures Inv(INITIAL_STATE)
  {
  }

  /**
   * `commitHistory` skips the push when the normalised elements equal the last
   * snapshot; otherwise it appends them, drops the oldest entry past
   * MAX_HISTORY and empties the redo stack. Nothing else changes.
   */
  lemma CommitHistorySpec(s: CanvasState)
    requires Inv(s)
    ensures var snap := NormalizeZIndices(s.elements);
            var c := CommitHistory(s);
            && c.(history := s.history, future := s.future) == s
            && (|s.history| > 0 && s.history[|s.history| - 1] == snap ==> c == s)
            && (!(|s.history| > 0 && s.history[|s.history| - 1] == snap) ==>
                  c.future == [] && c.history[|c.history| - 1] == snap
                  && (|s.history| < MAX_HISTORY ==> c.history == s.history + [snap])
                  && (|s.history| == MAX_HISTORY ==> c.history == s.history[1..] + [snap]))
            && Inv(c)
  {
    CloneElementsIdentity(s.elements);
  }

  /** A commit never pushes a snapshot equal to the one before it. */
  lemma CommitNoAdjacentDuplicate(s: CanvasState)
    requires Inv(s) && |s.history| > 0
    ensures var c := CommitHistory(s);
            |c.history| >= 2 && c != s ==> c.history[|c.history| - 1] != c.history[|c.history| - 2]
  {
    CloneElementsIdentity(s.elements);
    var snap := NormalizeZIndices(s.elements);
    if s.history[|s.history| - 1] != snap {
      var c := CommitHistory(s);
      if |s.history| < MAX_HISTORY {
        assert c.history == s.history + [snap];
      } else {
        assert c.history == s.history[1..] + [snap];
      }
    }
  }

  /** A commit keeps the invariant. */
  lemma CommitKeepsInv(s: CanvasState)
    requires Inv(s)
    ensures Inv(CommitHistory(s))
  {
    CommitHistorySpec(s);
  }

  /** Each editing reducer keeps the invariant. */
  lemma AddKeepsInv(s: CanvasState, raw: Element)
    requires Inv(s)
    ensures Inv(AddElement(s, raw))
  {
    var e := AddedElement(s, raw);
    CommitKeepsInv(Touched(s.(elements := s.elements + [e], selectedId := IdOf(e))));
  }

  lemma UpdateKeepsInv(s: CanvasState, id: string, changes: Object)
    requires Inv(s)
    ensures Inv(UpdateElement(s, id, changes))
  {
    var i := FindElementIndex(s.elements, id);
    if i != -1 {
      CommitKeepsInv(Touched(s.(elements := s.elements[i := s.elements[i] + changes])));
    }
  }

  lemma ReplaceKeepsInv(s: CanvasState, raws: seq<Element>)
    requires Inv(s)
    ensures Inv(ReplaceElements(s, raws))
  {
    CommitKeepsInv(Touched(s.(elements := Prepared(raws))));
  }

  lemma RemoveKeepsInv(s: CanvasState, id: string)
    requires Inv(s)
    ensures Inv(RemoveElement(s, id))
  {
    var i := FindElementIndex(s.elements, id);
    if i != -1 {
      var selected := if s.selectedId == Some(Str(id)) then None else s.selectedId;
      CommitKeepsInv(Touched(s.(elements := NormalizeZIndices(RemoveAt(s.elements, i)), selectedId := selected)));
    }
  }

  lemma ReorderKeepsInv(s: CanvasState, id: string, op: ReorderOp)
    requires Inv(s)
    ensures Inv(ReorderElement(s, id, op))
  {
    match ReorderedList(s.elements, id, op)
    case None => {}
    case Some(es) => CommitKeepsInv(Touched(s.(elements := es)));
  }

  lemma SetDesignKeepsInv(s: CanvasState, d: Design)
    requires Inv(s)
    ensures Inv(SetDesign(s, d))
  {
    CloneElementsIdentity(Prepared(d.elements));
  }

  /** `setDesign` of another design, or of one without local edits, field by field. */
  lemma SetDesignLoads(s: CanvasState, d: Design, es: seq<Element>, snapshot: seq<Element>)
    requires !(s.designId == Some(d.id) && s.version > 0)
    requires es == Prepared(d.elements) && snapshot == CloneElements(es)
    ensures SetDesign(s, d) == CanvasState(Some(d.id), d.name, d.width, d.height, es, None, s.loading, false,
                                           [snapshot], [], 0)
  {
  }

  lemma UndoKeepsInv(s: CanvasState)
    requires Inv(s)
    ensures Inv(Undo(s))
  {
    if |s.history| > 1 {
      var n := |s.history|;
      CloneElementsIdentity(s.history[n - 2]);
      var u := Undo(s);
      assert u.future == [s.history[n - 1]] + s.future;
    }
  }

  lemma RedoKeepsInv(s: CanvasState)
    requires Inv(s)
    ensures Inv(Redo(s))
  {
    if |s.future| > 0 {
      CloneElementsIdentity(s.future[0]);
    }
  }

  /** The history bound: after any reducer, at most MAX_HISTORY snapshots. */
  lemma HistoryBounded(s: CanvasState, raw: Element)
    requires Inv(s)
    ensures |AddElement(s, raw).history| <= MAX_HISTORY
    ensures |Redo(s).history| <= MAX_HISTORY
  {
    AddKeepsInv(s, raw);
    RedoKeepsInv(s);
  }

  /** updateElement, removeElement and reorderElement change nothing when no element has the id. */
  lemma AbsentIdIsNoOp(s: CanvasState, id: string, changes: Object, op: ReorderOp)
    requires forall i :: 0 <= i < |s.elements| ==> !HasId(s.elements[i], id)
    ensures UpdateElement(s, id, changes) == s
    ensures RemoveElement(s, id) == s
    ensures ReorderElement(s, id, op) == s
  {
    CloneElementsIdentity(s.elements);
  }

  /**
   * Every local edit that is not a no-op bumps the version by exactly one and
   * marks the design dirty: add and replace always, update, remove and reorder
   * when the id is found (and the move is not a no-op), undo and redo when enabled.
   */
  lemma LocalEditsBumpVersion(s: CanvasState, raw: Element, raws: seq<Element>, id: string, changes: Object, op: ReorderOp)
    ensures var r := AddElement(s, raw); r.version == s.version + 1 && r.dirty
    ensures var r := ReplaceElements(s, raws); r.version == s.version + 1 && r.dirty
    ensures FindElementIndex(s.elements, id) != -1 ==>
              var r := UpdateElement(s, id, changes); r.version == s.version + 1 && r.dirty
    ensures FindElementIndex(s.elements, id) != -1 ==>
              var r := RemoveElement(s, id); r.version == s.version + 1 && r.dirty
    ensures ReorderElement(s, id, op) != s ==>
              var r := ReorderElement(s, id, op); r.version == s.version + 1 && r.dirty
    ensures |s.history| > 1 ==> Undo(s).version == s.version + 1 && Undo(s).dirty
    ensures |s.future| > 0 ==> Redo(s).version == s.version + 1 && Redo(s).dirty
  {
  }

  /** `applyRemoteUpdate` sets the elements (normalised) and the received version, and nothing else. */
  lemma RemoteUpdateTouchesOnlyElements(s: CanvasState, elements: seq<Element>, version: int)
    ensures var r := ApplyRemoteUpdate(s, elements, version);
            r.(elements := s.elements, version := s.version) == s
            && r.version == version && ZIndexed(r.elements) && |r.elements| == |elements|
  {
  }

  /** After a fresh load, replace, remove or reorder, every element's zIndex is its position; add keeps that. */
  lemma FreshLoadZIndexed(s: CanvasState, d: Design)
    requires !(s.designId == Some(d.id) && s.version > 0)
    ensures ZIndexed(SetDesign(s, d).elements)
  {
  }

  lemma ReplaceZIndexed(s: CanvasState, raws: seq<Element>)
    ensures ZIndexed(ReplaceElements(s, raws).elements)
  {
  }

  lemma RemoveZIndexed(s: CanvasState, id: string)
    requires FindElementIndex(s.elements, id) != -1
    ensures ZIndexed(RemoveElement(s, id).elements)
  {
  }

  lemma ReorderZIndexed(s: CanvasState, id: string, op: ReorderOp)
    requires ReorderElement(s, id, op) != s
    ensures ZIndexed(ReorderElement(s, id, op).elements)
  {
    CloneElementsIdentity(s.elements);
    var i := FindElementIndex(s.elements, id);
    if i != -1 {
      match ReorderTarget(op, i, |s.elements| - 1)
      case None => {}
      case Some(t) => {
        var t1 := Touched(s.(elements := NormalizeZIndices(Move(s.elements, i, t))));
        assert CommitHistory(t1).elements == t1.elements;
      }
    }
  }

  lemma AddKeepsZIndexed(s: CanvasState, raw: Element)
    requires ZIndexed(s.elements)
    ensures ZIndexed(AddElement(s, raw).elements)
  {
    var e := AddedElement(s, raw);
    var t := Touched(s.(elements := s.elements + [e], selectedId := IdOf(e)));
    assert CommitHistory(t).elements == t.elements;
    assert "zIndex" in e && e["zIndex"] == Num(|s.elements| as real);
    ZIndexedSnoc(s.elements, e);
  }

  /** Appending the element whose zIndex is the old length keeps a list z-indexed. */
  lemma ZIndexedSnoc(es: seq<Element>, e: Element)
    requires ZIndexed(es)
    requires "zIndex" in e && e["zIndex"] == Num(|es| as real)
    ensures ZIndexed(es + [e])
  {
  }

  /** Removing the selected element clears the selection; removing another keeps it. */
  lemma RemoveSelection(s: CanvasState, id: string)
    requires FindElementIndex(s.elements, id) != -1
    ensures var r := RemoveElement(s, id);
            && |r.elements| == |s.elements| - 1
            && (s.selectedId == Some(Str(id)) ==> r.selectedId == None)
            && (s.selectedId != Some(Str(id)) ==> r.selectedId == s.selectedId)
            && r.elements == NormalizeZIndices(RemoveAt(s.elements, FindElementIndex(s.elements, id)))
  {
  }

  /** reorderElement is a no-op for forward/front on the last element and backward/back on the first. */
  lemma ReorderAtEdgeIsNoop(s: CanvasState, id: string, op: ReorderOp)
    requires FindElementIndex(s.elements, id) != -1
    ensures var i := FindElementIndex(s.elements, id);
            var last := |s.elements| - 1;
            ((op.Forward? || op.Front?) && i == last) || ((op.Backward? || op.Back?) && i == 0) ==>
              ReorderElement(s, id, op) == s
  {
    var i := FindElementIndex(s.elements, id);
    if ReorderTarget(op, i, |s.elements| - 1).None? {
      ReorderListNoop(s.elements, id, op);
    }
  }

  /**
   * Otherwise the element lands at index+1, index-1, the end or the start,
   * and the others keep their relative order (Move).
   */
  lemma ReorderMoves(s: CanvasState, id: string, op: ReorderOp)
    requires FindElementIndex(s.elements, id) != -1
    ensures var i := FindElementIndex(s.elements, id);
            var last := |s.elements| - 1;
            var r := ReorderElement(s, id, op);
            && (op.Forward? && i != last ==> r.elements == NormalizeZIndices(Move(s.elements, i, i + 1)))
            && (op.Backward? && i != 0 ==> r.elements == NormalizeZIndices(Move(s.elements, i, i - 1)))
            && (op.Front? && i != last ==> r.elements == NormalizeZIndices(Move(s.elements, i, last)))
            && (op.Back? && i != 0 ==> r.elements == NormalizeZIndices(Move(s.elements, i, 0)))
  {
    var i := FindElementIndex(s.elements, id);
    var last := |s.elements| - 1;
    match op
    case Forward => if i != last { ReorderElementsAt(s, id, op, i, i + 1); }
    case Backward => if i != 0 { ReorderElementsAt(s, id, op, i, i - 1); }
    case Front => if i != last { ReorderElementsAt(s, id, op, i, last); }
    case Back => if i != 0 { ReorderElementsAt(s, id, op, i, 0); }
  }

  lemma ReorderElementsAt(s: CanvasState, id: string, op: ReorderOp, i: nat, t: nat)
    requires i == FindElementIndex(s.elements, id)
    requires ReorderTarget(op, i, |s.elements| - 1) == Some(t)
    ensures ReorderElement(s, id, op).elements == NormalizeZIndices(Move(s.elements, i, t))
  {
    ReorderListMoves(s.elements, id, op, i, t);
    var moved := NormalizeZIndices(Move(s.elements, i, t));
    assert ReorderElement(s, id, op) == CommitHistory(Touched(s.(elements := moved)));
  }

  /** undo is a no-op with at most one snapshot; otherwise the last snapshot goes to the front of the redo stack. */
  lemma UndoSpec(s: CanvasState)
    ensures |s.history| <= 1 ==> Undo(s) == s
    ensures |s.history| > 1 ==>
              var n := |s.history|;
              var u := Undo(s);
              && u.history == s.history[..n - 1]
              && u.future == [s.history[n - 1]] + s.future
              && u.elements == s.history[n - 2]
  {
    if |s.history| > 1 {
      CloneElementsIdentity(s.history[|s.history| - 2]);
    }
  }

  /** redo is a no-op on an empty redo stack; otherwise it restores the front entry and appends it to history. */
  lemma RedoSpec(s: CanvasState)
    ensures |s.future| == 0 ==> Redo(s) == s
    ensures |s.future| > 0 ==>
              var r := Redo(s);
              && r.elements == s.future[0]
              && r.future == s.future[1..]
              && r.history == PushBounded(s.history, s.future[0])
              && r.history[|r.history| - 1] == s.future[0]
  {
    if |s.future| > 0 {
      CloneElementsIdentity(s.future[0]);
    }
  }

  /**
   * Undo then redo restores the element list, the history and the redo stack,
   * when the elements are the last snapshot (as after any commit of a
   * normalised list).
   */
  lemma UndoRedoRoundTrip(s: CanvasState)
    requires Inv(s) && |s.history| > 1 && s.elements == s.history[|s.history| - 1]
    ensures var r := Redo(Undo(s));
            r.elements == s.elements && r.history == s.history && r.future == s.future
            && r.version == s.version + 2
  {
    var n := |s.history|;
    UndoSpec(s);
    var u := Undo(s);
    RedoSpec(u);
    assert u.future[0] == s.history[n - 1];
    assert u.future[1..] == s.future;
    CloneElementsIdentity(s.history[n - 1]);
    assert s.history[..n - 1] + [s.history[n - 1]] == s.history;
  }

  /**
   * setDesign on the same design with local edits keeps elements, history,
   * redo stack and version; otherwise it reloads the elements and resets
   * history to them, the redo stack to empty and the version to 0. Both clear
   * the selection and the dirty flag.
   */
  lemma SetDesignCases(s: CanvasState, d: Design)
    requires Inv(s)
    ensures var r := SetDesign(s, d);
            && r.selectedId == None && !r.dirty && r.designId == Some(d.id)
            && (s.designId == Some(d.id) && s.version > 0 ==>
                  r.elements == s.elements && r.history == s.history && r.future == s.future && r.version == s.version)
            && (!(s.designId == Some(d.id) && s.version > 0) ==>
                  r.elements == Prepared(d.elements) && r.history == [r.elements] && r.future == [] && r.version == 0)
  {
    CloneElementsIdentity(Prepared(d.elements));
  }

  /** Loading an empty design, adding one element and removing it leaves three snapshots, as the store's own test expects. */
  lemma AddRemoveHistory(d: Design, raw: Element, id: string)
    requires d.elements == [] && HasId(raw, id)
    ensures var s1 := SetDesign(INITIAL_STATE, d);
            var s2 := AddElement(s1, raw);
            var s3 := RemoveElement(s2, id);
            |s1.elements| == 0 && |s2.elements| == 1 && |s2.history| == 2
            && |s3.elements| == 0 && |s3.history| == 3
  {
    var s1 := SetDesign(INITIAL_STATE, d);
    assert |s1.elements| == 0 && |s1.history| == 1 && |s1.history[0]| == 0;
    var e := AddedElement(s1, raw);
    var t2 := Touched(s1.(elements := [e], selectedId := IdOf(e)));
    assert s1.elements + [e] == [e];
    var s2 := CommitHistory(t2);
    assert |NormalizeZIndices(t2.elements)| == 1;
    assert s2.history == PushBounded(s1.history, NormalizeZIndices([e]));
    assert |s2.history| == 2 && |s2.history[1]| == 1;
    assert s2.elements == [e] && HasId(e, id);
    assert FindElementIndex(s2.elements, id) == 0;
    var t3 := Touched(s2.(elements := NormalizeZIndices(RemoveAt(s2.elements, 0)),
                          selectedId := if s2.selectedId == Some(Str(id)) then None else s2.selectedId));
    assert |t3.elements| == 0;
    var s3 := CommitHistory(t3);
    assert s3 == RemoveElement(s2, id);
    assert s3.history == PushBounded(s2.history, NormalizeZIndices(t3.elements));
  }

  // ---------------------------------------------------------------------
  // The store as the source holds it: fields mutated in place by each reducer.

  class Canvas {
    var designId: Option<string>
    var name: string
    var width: real
    var height: real
    var elements: seq<Element>
    var selectedId: Option<Value>
    var loading: bool
    var dirty: bool
    var history: seq<seq<Element>>
    var future: seq<seq<Element>>
    var version: int

    function State(): CanvasState
      reads this
    {
      CanvasState(designId, name, width, height, elements, selectedId, loading, dirty, history, future, version)
    }

    ghost predicate Valid()
      reads this
    {
      Inv(State())
    }

    constructor ()
      ensures State() == INITIAL_STATE && Valid()
    {
      designId := None;
      name := "Untitled";
      width := 1080.0;
      height := 1080.0;
      elements := [];
      selectedId := None;
      loading := false;
      dirty := false;
      history := [];
      future := [];
      version := 0;
    }

    method CommitHistoryStep()
      modifies this
      ensures State() == CommitHistory(old(State()))
    {
      var snapshot := NormalizeZIndices(CloneElements(elements));
      if |history| > 0 && history[|history| - 1] == snapshot {
        return;
      }
      history := history + [snapshot];
      if |history| > MAX_HISTORY {
        history := history[1..];
      }
      future := [];
    }

    /** The bookkeeping every local edit ends with before its commit. */
    method TouchStep()
      modifies this
      ensures State() == Touched(old(State()))
    {
      dirty := true;
      version := version + 1;
    }

    /** Installs an edited list and selection, then does the bookkeeping and the history commit. */
    method CommitEditStep(es: seq<Element>, selected: Option<Value>)
      requires Valid()
      modifies this
      ensures State() == CommitHistory(Touched(old(State()).(elements := es, selectedId := selected))) && Valid()
    {
      CommitKeepsInv(Touched(State().(elements := es, selectedId := selected)));
      elements := es;
      selectedId := selected;
      TouchStep();
      CommitHistoryStep();
    }

    method SetLoadingStep(value: bool)
      requires Valid()
      modifies this
      ensures State() == SetLoading(old(State()), value) && Valid()
    {
      loading := value;
    }

    method SetDesignStep(d: Design)
      requires Valid()
      modifies this
      ensures State() == SetDesign(old(State()), d) && Valid()
    {
      SetDesignKeepsInv(State(), d);
      var preserve := designId == Some(d.id) && version > 0;
      if !preserve {
        LoadDesignStep(d);
      } else {
        RefreshDesignStep(d);
      }
    }

    /** `setDesign` for a different design, or one without local edits: the design's own elements replace the list. */
    method LoadDesignStep(d: Design)
      requires !(designId == Some(d.id) && version > 0)
      modifies this
      ensures State() == SetDesign(old(State()), d)
    {
      ghost var s0 := State();
      var es := Prepared(d.elements);
      var snapshot := CloneElements(es);
      SetDesignLoads(s0, d, es, snapshot);
      designId := Some(d.id);
      name := d.name;
      width := d.width;
      height := d.height;
      selectedId := None;
      dirty := false;
      elements := es;
      history := [snapshot];
      future := [];
      version := 0;
    }

    /** `setDesign` for the loaded design after local edits: the list and its history stay. */
    method RefreshDesignStep(d: Design)
      requires designId == Some(d.id) && version > 0
      modifies this
      ensures State() == SetDesign(old(State()), d)
    {
      name := d.name;
      width := d.width;
      height := d.height;
      selectedId := None;
      dirty := false;
      history := if |history| == 0 then [CloneElements(elements)] else history;
    }

    method SetNameStep(value: string)
      requires Valid()
      modifies this
      ensures State() == SetName(old(State()), value) && Valid()
    {
      name := value;
      dirty := true;
    }

    method SetDimensionsStep(w: real, h: real)
      requires Valid()
      modifies this
      ensures State() == SetDimensions(old(State()), w, h) && Valid()
    {
      width := w;
      height := h;
      dirty := true;
    }

    method SelectElementStep(id: Option<string>)
      requires Valid()
      modifies this
      ensures State() == SelectElement(old(State()), id) && Valid()
    {
      selectedId := if id.Some? then Some(Str(id.value)) else None;
    }

    method AddElementStep(raw: Element)
      requires Valid()
      modifies this
      ensures State() == AddElement(old(State()), raw) && Valid()
    {
      ghost var s0 := State();
      var e := WithElementDefaults(raw)["zIndex" := Num(|elements| as real)];
      assert AddElement(s0, raw) == CommitHistory(Touched(s0.(elements := s0.elements + [e], selectedId := IdOf(e))));
      CommitEditStep(elements + [e], IdOf(e));
    }

    method UpdateElementStep(id: string, changes: Object)
      requires Valid()
      modifies this
      ensures State() == UpdateElement(old(State()), id, changes) && Valid()
    {
      var index := FindElementIndex(elements, id);
      if index == -1 {
        return;
      }
      CommitEditStep(elements[index := elements[index] + changes], selectedId);
    }

    method ReplaceElementsStep(raws: seq<Element>)
      requires Valid()
      modifies this
      ensures State() == ReplaceElements(old(State()), raws) && Valid()
    {
      CommitEditStep(Prepared(raws), selectedId);
    }

    method RemoveElementStep(id: string)
      requires Valid()
      modifies this
      ensures State() == RemoveElement(old(State()), id) && Valid()
    {
      ghost var s0 := State();
      var index := FindElementIndex(elements, id);
      if index == -1 {
        return;
      }
      var remaining := NormalizeZIndices(RemoveAt(elements, index));
      var selected := if selectedId == Some(Str(id)) then None else selectedId;
      assert RemoveElement(s0, id) == CommitHistory(Touched(s0.(elements := remaining, selectedId := selected)));
      CommitEditStep(remaining, selected);
    }

    method ReorderElementStep(id: string, op: ReorderOp)
      requires Valid()
      modifies this
      ensures State() == ReorderElement(old(State()), id, op) && Valid()
    {
      ghost var es0 := elements;
      // The clone the source takes first equals `elements` (CloneElementsIdentity), so the list is used as is.
      var index := FindElementIndex(elements, id);
      if index == -1 {
        ReorderListNoop(es0, id, op);
        return;
      }
      var target := ReorderTarget(op, index, |elements| - 1);
      if target.None? {
        ReorderListNoop(es0, id, op);
        return;
      }
      MoveElementStep(id, op, index, target.value);
    }

    /** The committing half of `reorderElement`: the element at `index` goes to `t`. */
    method MoveElementStep(id: string, op: ReorderOp, index: nat, t: nat)
      requires Valid()
      requires index == FindElementIndex(elements, id) && ReorderTarget(op, index, |elements| - 1) == Some(t)
      modifies this
      ensures State() == ReorderElement(old(State()), id, op) && Valid()
    {
      ghost var s0 := State();
      var reordered := NormalizeZIndices(Move(elements, index, t));
      ReorderCommitsMove(s0, id, op, index, t, reordered);
      CommitEditStep(reordered, selectedId);
    }

    method UndoStep()
      requires Valid()
      modifies this
      ensures State() == Undo(old(State())) && Valid()
    {
      UndoKeepsInv(State());
      if |history| <= 1 {
        return;
      }
      var currentSnapshot := history[|history| - 1];
      history := history[..|history| - 1];
      future := [currentSnapshot] + future;
      var previousSnapshot := history[|history| - 1];
      elements := CloneElements(previousSnapshot);
      dirty := true;
      version := version + 1;
    }

    method RedoStep()
      requires Valid()
      modifies this
      ensures State() == Redo(old(State())) && Valid()
    {
      RedoKeepsInv(State());
      if |future| == 0 {
        return;
      }
      var nextSnapshot := future[0];
      future := future[1..];
      elements := CloneElements(nextSnapshot);
      history := history + [CloneElements(nextSnapshot)];
      if |history| > MAX_HISTORY {
        history := history[1..];
      }
      dirty := true;
      version := version + 1;
    }

    method MarkSavedStep()
      requires Valid()
      modifies this
      ensures State() == MarkSaved(old(State())) && Valid()
    {
      dirty := false;
    }

    method ApplyRemoteUpdateStep(incoming: seq<Element>, newVersion: int)
      requires Valid()
      modifies this
      ensures State() == ApplyRemoteUpdate(old(State()), incoming, newVersion) && Valid()
    {
      elements := Prepared(incoming);
      version := newVersion;
    }
  }
}
