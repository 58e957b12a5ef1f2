/**
 * Design elements and the helpers the canvas store builds on
 * (frontend/src/utils/elements.ts).
 *
 * An element is a plain JavaScript object, modelled as a JSON object: a map
 * from property name to value, where an absent key is `undefined`. Object
 * spread `{ ...a, ...b }` is the map union `a + b`, the right operand winning.
 */
module Elements {
  import opened Json
  import Seqs

  type Element = Json.Object

  const TEXT_ELEMENT_DEFAULTS: Object := map[
    "type" := Str("text"), "name" := Str("Text"), "text" := Str("New text"),
    "fontFamily" := Str("Inter"), "fontSize" := Num(48.0), "fontWeight" := Str("normal"),
    "fill" := Str("#111827"), "textAlign" := Str("left"),
    "x" := Num(200.0), "y" := Num(200.0), "width" := Num(400.0), "height" := Num(80.0),
    "rotation" := Num(0.0), "zIndex" := Num(0.0), "opacity" := Num(1.0)]

  const BASE_SHAPE_DEFAULTS: Object := map[
    "type" := Str("shape"), "name" := Str("Shape"), "shapeType" := Str("rect"),
    "fill" := Str("#3b82f6"), "stroke" := Str("#1d4ed8"), "strokeWidth" := Num(0.0),
    "cornerRadius" := Num(0.0),
    "x" := Num(250.0), "y" := Num(250.0), "width" := Num(300.0), "height" := Num(200.0),
    "rotation" := Num(0.0), "zIndex" := Num(0.0), "opacity" := Num(1.0)]

  /** Object spread `{ ...base, ...top }`: the top's properties win, the base fills in the rest. */
  function Overlay(base: Object, top: Object): (r: Object)
    ensures forall k :: k in top ==> k in r && r[k] == top[k]
    ensures forall k :: k in base && k !in top ==> k in r && r[k] == base[k]
    ensures forall k :: k in r ==> k in base || k in top
  {
    base + top
  }

  /** `makeShapeDefaults`: the base shape defaults under the overrides, always of type 'shape'. */
  function MakeShapeDefaults(overrides: Object): (r: Object)
    ensures HasString(r, "type", "shape")
    ensures forall k :: k in overrides && k != "type" ==> k in r && r[k] == overrides[k]
    ensures forall k :: k in BASE_SHAPE_DEFAULTS && k !in overrides && k != "type" ==> k in r && r[k] == BASE_SHAPE_DEFAULTS[k]
  {
    Overlay(Overlay(BASE_SHAPE_DEFAULTS, overrides), map["type" := Str("shape")])
  }

  const RECT_ELEMENT_DEFAULTS: Object :=
    MakeShapeDefaults(map["name" := Str("Rectangle"), "shapeType" := Str("rect")])

  const CIRCLE_ELEMENT_DEFAULTS: Object :=
    MakeShapeDefaults(map[
      "name" := Str("Circle"), "shapeType" := Str("circle"),
      "fill" := Str("#10b981"), "stroke" := Str("#047857"),
      "x" := Num(300.0), "y" := Num(300.0), "width" := Num(200.0), "height" := Num(200.0)])

  const IMAGE_ELEMENT_DEFAULTS: Object := map[
    "type" := Str("image"), "name" := Str("Image"), "url" := Str("data:,"), "fit" := Str("contain"),
    "x" := Num(200.0), "y" := Num(200.0), "width" := Num(400.0), "height" := Num(300.0),
    "rotation" := Num(0.0), "zIndex" := Num(0.0), "opacity" := Num(1.0)]

  /** `o.k === v` for a string `v` (an absent key is `undefined`, never equal). */
  predicate HasString(o: Object, k: string, v: string) {
    k in o && o[k] == Str(v)
  }

  /**
   * `mergeWithDefaults`: every property the raw element supplies wins over the
   * defaults, the rest come from the defaults, and the id is the raw id.
   */
  function MergeWithDefaults(defaults: Object, raw: Element): (r: Element)
    ensures forall k :: k in raw ==> k in r && r[k] == raw[k]
    ensures forall k :: k in defaults && k !in raw && k != "id" ==> k in r && r[k] == defaults[k]
    ensures forall k :: k in r ==> k in raw || (k in defaults && k != "id")
    ensures ("id" in r) == ("id" in raw)
  {
    var merged := defaults + raw;
    if "id" in raw then merged["id" := raw["id"]] else merged - {"id"}
  }

  /** The defaults `withElementDefaults` chooses for a raw element. */
  function DefaultsFor(raw: Element): Object {
    if HasString(raw, "type", "text") then TEXT_ELEMENT_DEFAULTS
    else if HasString(raw, "type", "shape") then
      (if HasString(raw, "shapeType", "circle") then CIRCLE_ELEMENT_DEFAULTS else RECT_ELEMENT_DEFAULTS)
    else
      IMAGE_ELEMENT_DEFAULTS["url" := Coalesce(raw, "url", Coalesce(raw, "imageUrl", IMAGE_ELEMENT_DEFAULTS["url"]))]
  }

  /** `withElementDefaults`: fills in what a raw element lacks from its type's defaults. */
  function WithElementDefaults(raw: Element): (r: Element)
    ensures forall k :: k in raw ==> k in r && r[k] == raw[k]
    ensures forall k :: k in DefaultsFor(raw) && k !in raw && k != "id" ==> k in r && r[k] == DefaultsFor(raw)[k]
    ensures ("id" in r) == ("id" in raw)
  {
    MergeWithDefaults(DefaultsFor(raw), raw)
  }

  /** Circles take the circle defaults; every other shape takes the rectangle defaults. */
  lemma ShapeDefaults(raw: Element)
    requires HasString(raw, "type", "shape")
    ensures HasString(raw, "shapeType", "circle") ==>
              forall k :: k in CIRCLE_ELEMENT_DEFAULTS && k !in raw && k != "id" ==>
                k in WithElementDefaults(raw) && WithElementDefaults(raw)[k] == CIRCLE_ELEMENT_DEFAULTS[k]
    ensures !HasString(raw, "shapeType", "circle") ==>
              forall k :: k in RECT_ELEMENT_DEFAULTS && k !in raw && k != "id" ==>
                k in WithElementDefaults(raw) && WithElementDefaults(raw)[k] == RECT_ELEMENT_DEFAULTS[k]
  {
  }

  /**
   * An image without a `url` property takes the legacy `imageUrl` when that is
   * neither null nor undefined, else 'data:,'. A `url` the raw element carries,
   * null included, is kept as it is.
   */
  lemma ImageUrlFallback(raw: Element)
    requires !HasString(raw, "type", "text") && !HasString(raw, "type", "shape")
    ensures "url" in WithElementDefaults(raw)
    ensures "url" in raw ==> WithElementDefaults(raw)["url"] == raw["url"]
    ensures "url" !in raw && "imageUrl" in raw && raw["imageUrl"] != Null ==>
              WithElementDefaults(raw)["url"] == raw["imageUrl"]
    ensures "url" !in raw && ("imageUrl" !in raw || raw["imageUrl"] == Null) ==>
              WithElementDefaults(raw)["url"] == Str("data:,")
  {
  }

  /** `cloneElements`: a list of the same length whose elements equal the originals field by field. */
  function CloneElements(es: seq<Element>): (r: seq<Element>)
    ensures |r| == |es|
    ensures forall i :: 0 <= i < |es| ==> r[i].Keys == es[i].Keys && forall k :: k in es[i] ==> r[i][k] == es[i][k]
  {
    seq(|es|, i requires 0 <= i < |es| => map k | k in es[i] :: es[i][k])
  }

  /** Elements are values here, so a clone is equal to the list it copies. */
  lemma CloneElementsIdentity(es: seq<Element>)
    ensures CloneElements(es) == es
  {
    var r := CloneElements(es);
    forall i | 0 <= i < |es| ensures r[i] == es[i] {
      assert r[i].Keys == es[i].Keys;
    }
  }

  /** Element `i` of the list carries `zIndex` `i`. */
  predicate ZIndexed(es: seq<Element>) {
    forall i :: 0 <= i < |es| ==> "zIndex" in es[i] && es[i]["zIndex"] == Num(i as real)
  }

  /** `normalizeZIndices`: the same elements, in the same order, with zIndex equal to position. */
  function NormalizeZIndices(es: seq<Element>): (r: seq<Element>)
    ensures |r| == |es|
    ensures ZIndexed(r)
    ensures forall i, k :: 0 <= i < |es| && k in es[i] && k != "zIndex" ==> k in r[i] && r[i][k] == es[i][k]
    ensures forall i :: 0 <= i < |es| ==> r[i].Keys == es[i].Keys + {"zIndex"}
  {
    seq(|es|, i requires 0 <= i < |es| => es[i]["zIndex" := Num(i as real)])
  }

  /** A list whose zIndex already equals position is a fixed point of normalisation. */
  lemma {:induction false} NormalizeZIndexed(es: seq<Element>)
    requires ZIndexed(es)
    ensures NormalizeZIndices(es) == es
  {
    var r := NormalizeZIndices(es);
    forall i | 0 <= i < |es| ensures r[i] == es[i] {
      assert r[i].Keys == es[i].Keys;
      assert forall k :: k in es[i] ==> r[i][k] == es[i][k];
    }
  }

  /** Normalising twice is normalising once. */
  lemma NormalizeIdempotent(es: seq<Element>)
    ensures NormalizeZIndices(NormalizeZIndices(es)) == NormalizeZIndices(es)
  {
    NormalizeZIndexed(NormalizeZIndices(es));
  }

  /** An element's `id` is the given string. */
  predicate HasId(e: Element, id: string) {
    HasString(e, "id", id)
  }

  /** `findElementIndex`: the first position whose id matches, or -1. */
  function FindElementIndex(es: seq<Element>, id: string): (r: int)
    ensures -1 <= r < |es|
    ensures r == -1 <==> forall i :: 0 <= i < |es| ==> !HasId(es[i], id)
    ensures r >= 0 ==> HasId(es[r], id) && forall i :: 0 <= i < r ==> !HasId(es[i], id)
  {
    Seqs.FindIndex(es, (e: Element) => HasId(e, id))
  }

  /** None of the defaults carries an id: the id always comes from the raw element or the caller. */
  lemma DefaultsHaveNoId()
    ensures "id" !in TEXT_ELEMENT_DEFAULTS && "id" !in IMAGE_ELEMENT_DEFAULTS
    ensures "id" !in RECT_ELEMENT_DEFAULTS && "id" !in CIRCLE_ELEMENT_DEFAULTS
  {
    assert "id" !in BASE_SHAPE_DEFAULTS;
  }

  /**
   * The shape shared by the `create*Element` helpers: `{ id: overrides.id ??
   * freshId, ...defaults, ...overrides, ...forced }`, where `freshId` stands
   * for the `nanoid()` the source draws.
   */
  function CreateFrom(defaults: Object, overrides: Object, forced: Object, freshId: string): (r: Element)
    requires "id" !in defaults && "id" !in forced
    ensures forall k :: k in forced ==> k in r && r[k] == forced[k]
    ensures forall k :: k in overrides && k !in forced ==> k in r && r[k] == overrides[k]
    ensures forall k :: k in defaults && k !in overrides && k !in forced ==> k in r && r[k] == defaults[k]
    ensures "id" in r && ("id" !in overrides ==> r["id"] == Str(freshId))
  {
    Overlay(Overlay(Overlay(map["id" := Coalesce(overrides, "id", Str(freshId))], defaults), overrides), forced)
  }

  /** The tag `createTextElement` forces. */
  function TextTag(): (r: Object)
    ensures forall k :: k in r <==> k == "type"
    ensures HasString(r, "type", "text")
  {
    map["type" := Str("text")]
  }

  /** `createTextElement`: the text defaults under the overrides, with type 'text' whatever the overrides say. */
  function CreateTextElement(overrides: Object, freshId: string): (r: Element)
    ensures HasString(r, "type", "text")
    ensures forall k :: k in overrides && k != "type" ==> k in r && r[k] == overrides[k]
    ensures forall k :: k in TEXT_ELEMENT_DEFAULTS && k !in overrides && k != "type" ==> k in r && r[k] == TEXT_ELEMENT_DEFAULTS[k]
    ensures "id" !in overrides ==> HasId(r, freshId)
  {
    DefaultsHaveNoId();
    CreateFrom(TEXT_ELEMENT_DEFAULTS, overrides, TextTag(), freshId)
  }

  /** The tags a `create*Element` helper for shapes forces. */
  function ShapeTags(shapeType: string): (r: Object)
    ensures forall k :: k in r <==> k == "type" || k == "shapeType"
    ensures HasString(r, "type", "shape") && HasString(r, "shapeType", shapeType)
  {
    map["type" := Str("shape"), "shapeType" := Str(shapeType)]
  }

  /** `createRectElement`: the rectangle defaults under the overrides, forcing type 'shape' and shapeType 'rect'. */
  function CreateRectElement(overrides: Object, freshId: string): (r: Element)
    ensures HasString(r, "type", "shape") && HasString(r, "shapeType", "rect")
    ensures forall k :: k in overrides && k != "type" && k != "shapeType" ==> k in r && r[k] == overrides[k]
    ensures forall k :: k in RECT_ELEMENT_DEFAULTS && k !in overrides && k != "type" && k != "shapeType" ==>
              k in r && r[k] == RECT_ELEMENT_DEFAULTS[k]
    ensures "id" !in overrides ==> HasId(r, freshId)
  {
    DefaultsHaveNoId();
    CreateFrom(RECT_ELEMENT_DEFAULTS, overrides, ShapeTags("rect"), freshId)
  }

  /** `createCircleElement`: the circle defaults under the overrides, forcing type 'shape' and shapeType 'circle'. */
  function CreateCircleElement(overrides: Object, freshId: string): (r: Element)
    ensures HasString(r, "type", "shape") && HasString(r, "shapeType", "circle")
    ensures forall k :: k in overrides && k != "type" && k != "shapeType" ==> k in r && r[k] == overrides[k]
    ensures forall k :: k in CIRCLE_ELEMENT_DEFAULTS && k !in overrides && k != "type" && k != "shapeType" ==>
              k in r && r[k] == CIRCLE_ELEMENT_DEFAULTS[k]
    ensures "id" !in overrides ==> HasId(r, freshId)
  {
    DefaultsHaveNoId();
    CreateFrom(CIRCLE_ELEMENT_DEFAULTS, overrides, ShapeTags("circle"), freshId)
  }

  /** Created elements are well-tagged: running them through `withElementDefaults` changes nothing they carry. */
  lemma CreatedRectKeepsFields(overrides: Object, freshId: string)
    ensures var e := CreateRectElement(overrides, freshId);
            forall k :: k in e ==> k in WithElementDefaults(e) && WithElementDefaults(e)[k] == e[k]
  {
  }
}
