/**
 * The design, element and comment request schemas
 * (backend/src/validators/designValidators.ts) as parsers from JSON to the
 * parsed value or `None` (a `ZodError`). zod's URL check is a parameter.
 */
module DesignValidators {
  import opened Wrappers
  import opened Json
  import opened Zod

  const BASE_KEYS := {"id", "name", "type", "zIndex", "x", "y", "rotation", "width", "height"}
  const TEXT_KEYS := BASE_KEYS + {"text", "fontFamily", "fontSize", "fontWeight", "fill", "textAlign"}
  const IMAGE_KEYS := BASE_KEYS + {"imageUrl", "opacity", "fit"}
  const SHAPE_KEYS := BASE_KEYS + {"shapeType", "fill", "stroke", "strokeWidth", "radius"}

  predicate Number(o: Object, k: string) {
    k in o && o[k].Num?
  }

  /** The fields every element shares. */
  predicate BaseValid(o: Object) {
    && "id" in o && NonEmptyString(o["id"])
    && "name" in o && NonEmptyString(o["name"])
    && "zIndex" in o && IsInteger(o["zIndex"])
    && Number(o, "x") && Number(o, "y") && Number(o, "rotation")
    && Number(o, "width") && o["width"].n >= 0.0
    && Number(o, "height") && o["height"].n >= 0.0
  }

  predicate TextValid(o: Object) {
    && BaseValid(o)
    && "text" in o && NonEmptyString(o["text"])
    && "fontFamily" in o && NonEmptyString(o["fontFamily"])
    && Number(o, "fontSize") && o["fontSize"].n > 0.0
    && "fontWeight" in o && OneOf(o["fontWeight"], {"normal", "bold"})
    && "fill" in o && NonEmptyString(o["fill"])
    && "textAlign" in o && OneOf(o["textAlign"], {"left", "center", "right"})
  }

  predicate ImageValid(o: Object, isUrl: string -> bool) {
    && BaseValid(o)
    && "imageUrl" in o && o["imageUrl"].Str? && isUrl(o["imageUrl"].s)
    && Number(o, "opacity") && 0.0 <= o["opacity"].n <= 1.0
    && "fit" in o && OneOf(o["fit"], {"contain", "cover"})
  }

  predicate ShapeValid(o: Object) {
    && BaseValid(o)
    && "shapeType" in o && OneOf(o["shapeType"], {"rect", "circle"})
    && "fill" in o && NonEmptyString(o["fill"])
    && "stroke" in o && NonEmptyString(o["stroke"])
    && Number(o, "strokeWidth") && o["strokeWidth"].n >= 0.0
    && ("radius" !in o || (o["radius"].Num? && o["radius"].n > 0.0))
  }

  /** `designElementSchema`: the `type` tag picks the schema, and only that schema's keys are kept. */
  function ParseElement(v: Value, isUrl: string -> bool): (r: Option<Value>)
    ensures r.Some? ==>
      v.Obj? && "type" in v.fields && r.value.Obj? && "type" in r.value.fields
      && r.value.fields["type"] == v.fields["type"]
  {
    if !v.Obj? || "type" !in v.fields then None
    else
      var o := v.fields;
      if o["type"] == Str("text") then (if TextValid(o) then Some(Obj(Pick(o, TEXT_KEYS))) else None)
      else if o["type"] == Str("image") then (if ImageValid(o, isUrl) then Some(Obj(Pick(o, IMAGE_KEYS))) else None)
      else if o["type"] == Str("shape") then (if ShapeValid(o) then Some(Obj(Pick(o, SHAPE_KEYS))) else None)
      else None
  }

  /** `z.array(designElementSchema)`: every element must parse. */
  function ParseElements(items: seq<Value>, isUrl: string -> bool): (r: Option<seq<Value>>)
    ensures r.Some? <==> forall i :: 0 <= i < |items| ==> ParseElement(items[i], isUrl).Some?
    ensures r.Some? ==> (|r.value| == |items|
      && forall i :: 0 <= i < |items| ==> r.value[i] == ParseElement(items[i], isUrl).value)
  {
    if items == [] then Some([])
    else
      match (ParseElement(items[0], isUrl), ParseElements(items[1..], isUrl))
      case (Some(e), Some(rest)) => Some([e] + rest)
      case _ => None
  }

  /** A present optional `thumbnailUrl` must be a URL. */
  predicate ThumbnailValid(o: Object, isUrl: string -> bool) {
    "thumbnailUrl" !in o || (o["thumbnailUrl"].Str? && isUrl(o["thumbnailUrl"].s))
  }

  function OptionalKey(o: Object, k: string): Object {
    if k in o then map[k := o[k]] else map[]
  }

  /** `designCreateSchema`: name, positive size, elements defaulting to `[]`, optional thumbnail. */
  function ParseDesignCreate(o: Object, isUrl: string -> bool): (r: Option<Object>)
  {
    if !("name" in o && NonEmptyString(o["name"])) then None
    else if !(Number(o, "width") && o["width"].n > 0.0) then None
    else if !(Number(o, "height") && o["height"].n > 0.0) then None
    else if !ThumbnailValid(o, isUrl) then None
    else if "elements" in o && !(o["elements"].Arr? && ParseElements(o["elements"].items, isUrl).Some?) then None
    else
      var elements := if "elements" in o then ParseElements(o["elements"].items, isUrl).value else [];
      Some(map["name" := o["name"], "width" := o["width"], "height" := o["height"], "elements" := Arr(elements)]
           + OptionalKey(o, "thumbnailUrl"))
  }

  /** `designUpdateSchema`: every field optional, each checked as in the create schema when present, no default. */
  function ParseDesignUpdate(o: Object, isUrl: string -> bool): (r: Option<Object>)
  {
    if "name" in o && !NonEmptyString(o["name"]) then None
    else if "width" in o && !(o["width"].Num? && o["width"].n > 0.0) then None
    else if "height" in o && !(o["height"].Num? && o["height"].n > 0.0) then None
    else if !ThumbnailValid(o, isUrl) then None
    else if "elements" in o && !(o["elements"].Arr? && ParseElements(o["elements"].items, isUrl).Some?) then None
    else
      var elements := if "elements" in o then map["elements" := Arr(ParseElements(o["elements"].items, isUrl).value)] else map[];
      Some(Pick(o, {"name", "width", "height", "thumbnailUrl"}) + elements)
  }

  predicate OptionalNumber(o: Object, k: string) {
    k !in o || o[k].Num?
  }

  /** `commentCreateSchema`: author name and message required, `mentions` defaulting to `[]`. */
  function ParseCommentCreate(o: Object): (r: Option<Object>)
    ensures r.Some? ==> r.value.Keys == o.Keys * {"authorName", "authorId", "message", "x", "y"} + {"mentions"}
    ensures r.Some? ==> forall k :: k in r.value && k != "mentions" ==> r.value[k] == o[k]
  {
    if !("authorName" in o && NonEmptyString(o["authorName"])) then None
    else if "authorId" in o && !o["authorId"].Str? then None
    else if !("message" in o && NonEmptyString(o["message"])) then None
    else if "mentions" in o && !StringArray(o["mentions"]) then None
    else if !OptionalNumber(o, "x") || !OptionalNumber(o, "y") then None
    else
      var mentions := if "mentions" in o then o["mentions"] else Arr([]);
      Some(Pick(o, {"authorName", "authorId", "message", "x", "y"})["mentions" := mentions])
  }

  /** `commentUpdateSchema`: message required, mentions and position optional. */
  function ParseCommentUpdate(o: Object): (r: Option<Object>)
    ensures r.Some? ==> r.value.Keys == o.Keys * {"message", "mentions", "x", "y"}
    ensures r.Some? ==> forall k :: k in r.value ==> r.value[k] == o[k]
  {
    if !("message" in o && NonEmptyString(o["message"])) then None
    else if "mentions" in o && !StringArray(o["mentions"]) then None
    else if !OptionalNumber(o, "x") || !OptionalNumber(o, "y") then None
    else Some(Pick(o, {"message", "mentions", "x", "y"}))
  }

  // ---------------------------------------------------------------------
  // Properties.

  /** An element is accepted iff it satisfies the schema its `type` tag selects; the output keeps only that schema's keys. */
  lemma ElementTagDecides(v: Value, isUrl: string -> bool)
    ensures ParseElement(v, isUrl).Some? <==>
      v.Obj? && "type" in v.fields &&
      ((v.fields["type"] == Str("text") && TextValid(v.fields))
       || (v.fields["type"] == Str("image") && ImageValid(v.fields, isUrl))
       || (v.fields["type"] == Str("shape") && ShapeValid(v.fields)))
    ensures ParseElement(v, isUrl).Some? ==>
      var out := ParseElement(v, isUrl).value;
      out.Obj? && out.fields.Keys <= v.fields.Keys && out.fields.Keys <= TEXT_KEYS + IMAGE_KEYS + SHAPE_KEYS
      && forall k :: k in out.fields ==> out.fields[k] == v.fields[k]
  {
  }

  /** Parsing an element that already parsed gives it back unchanged. */
  lemma ParseElementIdempotent(v: Value, isUrl: string -> bool)
    requires ParseElement(v, isUrl).Some?
    ensures ParseElement(ParseElement(v, isUrl).value, isUrl) == ParseElement(v, isUrl)
  {
    var o := v.fields;
    if o["type"] == Str("text") {
      TextPicked(o);
    } else if o["type"] == Str("image") {
      ImagePicked(o, isUrl);
    } else {
      ShapePicked(o);
    }
  }

  /** Picking the same keys a second time changes nothing. */
  lemma PickTwice(o: Object, keys: set<string>)
    ensures Pick(Pick(o, keys), keys) == Pick(o, keys)
  {
    var p := Pick(o, keys);
    assert Pick(p, keys).Keys == p.Keys;
  }

  lemma TextPicked(o: Object)
    requires "type" in o && o["type"] == Str("text") && TextValid(o)
    ensures var p := Pick(o, TEXT_KEYS);
      p["type"] == Str("text") && TextValid(p) && Pick(p, TEXT_KEYS) == p
  {
    assert "type" in TEXT_KEYS && "text" in TEXT_KEYS && "fontFamily" in TEXT_KEYS && "fontSize" in TEXT_KEYS;
    assert "fontWeight" in TEXT_KEYS && "fill" in TEXT_KEYS && "textAlign" in TEXT_KEYS;
    PickTwice(o, TEXT_KEYS);
  }

  lemma ImagePicked(o: Object, isUrl: string -> bool)
    requires "type" in o && o["type"] == Str("image") && ImageValid(o, isUrl)
    ensures var p := Pick(o, IMAGE_KEYS);
      p["type"] == Str("image") && ImageValid(p, isUrl) && Pick(p, IMAGE_KEYS) == p
  {
    assert "type" in IMAGE_KEYS && "imageUrl" in IMAGE_KEYS && "opacity" in IMAGE_KEYS && "fit" in IMAGE_KEYS;
    PickTwice(o, IMAGE_KEYS);
  }

  lemma ShapePicked(o: Object)
    requires "type" in o && o["type"] == Str("shape") && ShapeValid(o)
    ensures var p := Pick(o, SHAPE_KEYS);
      p["type"] == Str("shape") && ShapeValid(p) && Pick(p, SHAPE_KEYS) == p
  {
    assert "type" in SHAPE_KEYS && "shapeType" in SHAPE_KEYS && "fill" in SHAPE_KEYS && "stroke" in SHAPE_KEYS;
    assert "strokeWidth" in SHAPE_KEYS && "radius" in SHAPE_KEYS;
    PickTwice(o, SHAPE_KEYS);
  }

  /** Whatever the create schema accepts, the update schema accepts too. */
  lemma CreateAcceptedImpliesUpdateAccepted(o: Object, isUrl: string -> bool)
    requires ParseDesignCreate(o, isUrl).Some?
    ensures ParseDesignUpdate(o, isUrl).Some?
  {
  }

  /**
   * The create schema is the update schema with name, width and height required:
   * a payload passes create iff it passes update and has all three; the
   * create output is then the update output plus `elements`, defaulted to `[]`.
   */
  lemma CreateIsUpdatePlusRequired(o: Object, isUrl: string -> bool)
    ensures ParseDesignCreate(o, isUrl).Some? <==>
      ParseDesignUpdate(o, isUrl).Some? && "name" in o && "width" in o && "height" in o
    ensures ParseDesignCreate(o, isUrl).Some? ==>
      var c, u := ParseDesignCreate(o, isUrl).value, ParseDesignUpdate(o, isUrl).value;
      c.Keys == u.Keys + {"elements"}
      && (forall k :: k in u ==> c[k] == u[k])
      && ("elements" !in o ==> c["elements"] == Arr([]))
  {
    CreateAcceptance(o, isUrl);
    if ParseDesignCreate(o, isUrl).Some? {
      DesignCreateOutput(o, isUrl);
      DesignUpdateOutput(o, isUrl);
      CreateElementsFromUpdate(o, isUrl);
    }
  }

  /** An update keeps exactly the schema's keys the request sent, copied as sent except the parsed `elements`; nothing is defaulted. */
  lemma DesignUpdateOutput(o: Object, isUrl: string -> bool)
    requires ParseDesignUpdate(o, isUrl).Some?
    ensures var u := ParseDesignUpdate(o, isUrl).value;
      u.Keys == o.Keys * {"name", "width", "height", "thumbnailUrl", "elements"}
      && forall k :: k in u && k != "elements" ==> u[k] == o[k]
  {
  }

  /** A created design has name, width, height and elements, plus `thumbnailUrl` only when sent; all but elements are copied. */
  lemma DesignCreateOutput(o: Object, isUrl: string -> bool)
    requires ParseDesignCreate(o, isUrl).Some?
    ensures var c := ParseDesignCreate(o, isUrl).value;
      c.Keys == {"name", "width", "height", "elements"} + o.Keys * {"thumbnailUrl"}
      && forall k :: k in c && k != "elements" ==> k in o && c[k] == o[k]
  {
    var elements := if "elements" in o then ParseElements(o["elements"].items, isUrl).value else [];
    var m := map["name" := o["name"], "width" := o["width"], "height" := o["height"], "elements" := Arr(elements)];
    var t := OptionalKey(o, "thumbnailUrl");
    assert ParseDesignCreate(o, isUrl).value == m + t;
    assert m.Keys == {"name", "width", "height", "elements"};
    assert t.Keys == o.Keys * {"thumbnailUrl"};
  }

  lemma CreateAcceptance(o: Object, isUrl: string -> bool)
    ensures ParseDesignCreate(o, isUrl).Some? <==>
      ParseDesignUpdate(o, isUrl).Some? && "name" in o && "width" in o && "height" in o
  {
  }

  lemma CreateElementsFromUpdate(o: Object, isUrl: string -> bool)
    requires ParseDesignCreate(o, isUrl).Some? && ParseDesignUpdate(o, isUrl).Some?
    ensures ParseDesignCreate(o, isUrl).value["elements"] ==
      if "elements" in o then ParseDesignUpdate(o, isUrl).value["elements"] else Arr([])
  {
  }

  /** A parsed design never carries owner fields, and its elements are `[]` when the request had none. */
  lemma ParsedDesignShape(o: Object, isUrl: string -> bool)
    requires ParseDesignCreate(o, isUrl).Some?
    ensures var d := ParseDesignCreate(o, isUrl).value;
      "ownerId" !in d && "ownerName" !in d
      && "elements" in d && ("elements" !in o ==> d["elements"] == Arr([]))
      && d["name"].Str? && |d["name"].s| >= 1 && d["width"].Num? && d["width"].n > 0.0
      && d["height"].Num? && d["height"].n > 0.0
  {
    ParsedDesignHasNoOwner(o, isUrl);
    ParsedDesignElements(o, isUrl);
    ParsedDesignSize(o, isUrl);
  }

  lemma ParsedDesignHasNoOwner(o: Object, isUrl: string -> bool)
    requires ParseDesignCreate(o, isUrl).Some?
    ensures "ownerId" !in ParseDesignCreate(o, isUrl).value && "ownerName" !in ParseDesignCreate(o, isUrl).value
  {
  }

  lemma ParsedDesignElements(o: Object, isUrl: string -> bool)
    requires ParseDesignCreate(o, isUrl).Some?
    ensures var d := ParseDesignCreate(o, isUrl).value;
      "elements" in d && ("elements" !in o ==> d["elements"] == Arr([]))
  {
  }

  lemma ParsedDesignSize(o: Object, isUrl: string -> bool)
    requires ParseDesignCreate(o, isUrl).Some?
    ensures var d := ParseDesignCreate(o, isUrl).value;
      d["name"].Str? && |d["name"].s| >= 1 && d["width"].Num? && d["width"].n > 0.0
      && d["height"].Num? && d["height"].n > 0.0
  {
  }

  /** A parsed comment always has a non-empty message and a string list of mentions, `[]` when the request had none. */
  lemma ParsedCommentShape(o: Object)
    requires ParseCommentCreate(o).Some?
    ensures var c := ParseCommentCreate(o).value;
      "message" in c && c["message"].Str? && |c["message"].s| >= 1
      && "mentions" in c && StringArray(c["mentions"])
      && ("mentions" !in o ==> c["mentions"] == Arr([]))
      && "ownerId" !in c
  {
  }

  /** `commentUpdateSchema` accepts exactly a non-empty message with optional string mentions and numeric position. */
  lemma CommentUpdateAcceptsIff(o: Object)
    ensures ParseCommentUpdate(o).Some? <==>
      "message" in o && NonEmptyString(o["message"])
      && ("mentions" in o ==> StringArray(o["mentions"]))
      && OptionalNumber(o, "x") && OptionalNumber(o, "y")
  {
  }

  /** The comment create schema is the update schema plus a non-empty `authorName` and a string `authorId` when present. */
  lemma CommentCreateIsUpdatePlusAuthor(o: Object)
    ensures ParseCommentCreate(o).Some? <==>
      ParseCommentUpdate(o).Some? && "authorName" in o && NonEmptyString(o["authorName"])
      && ("authorId" in o ==> o["authorId"].Str?)
  {
  }
}
