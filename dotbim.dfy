/**
 The .bim data model, the parser `parseBim` and the encoder `encodeBim`.

 The parser works on the tree `JSON.parse` returns and follows JavaScript's evaluation
 order: it reads the top-level members, maps every mesh and then every element, and
 stops at the first property read that throws. The encoder gives the tree that
 `JSON.stringify` serialises: each record emits its own field names, camelCase, and
 leaves out the fields whose value is `undefined`.
 */
module DotBim {
  import opened Js

  /** Fields the parser copies from JSON keep whatever value the read produced,
      `undefined` included; no range or shape is enforced. */
  datatype Color = Color(r: JsValue, g: JsValue, b: JsValue, a: JsValue)

  datatype Vector = Vector(x: JsValue, y: JsValue, z: JsValue)

  datatype Rotation = Rotation(qx: JsValue, qy: JsValue, qz: JsValue, qw: JsValue)

  datatype Mesh = Mesh(meshId: JsValue, coordinates: JsValue, indices: JsValue)

  /** Free-form metadata: the own properties of an Info object. */
  type Info = map<string, Json>

  /** `elementType` holds the field the JavaScript class calls `type`. */
  datatype Element = Element(
    guid: JsValue,
    meshId: JsValue,
    vector: Vector,
    rotation: Rotation,
    elementType: JsValue,
    color: Color,
    faceColors: JsValue,
    info: Info)

  datatype BimFile = BimFile(
    schemaVersion: JsValue,
    info: Info,
    meshes: seq<Mesh>,
    elements: seq<Element>)

  /** `new Info(data)`: the properties `Object.assign(this, data)` copies. */
  function NewInfo(data: JsValue): (r: Info)
    ensures "__proto__" !in r
    ensures IsNullish(data) ==> r == map[]
  {
    AssignedPropertiesHaveNoProto(data);
    AssignedProperties(data)
  }

  // ---------------------------------------------------------------- parser

  /** The callback `m => new Mesh(m.mesh_id, m.coordinates, m.indices)`. */
  function ParseMesh(m: Json): (r: Result<Mesh>)
    ensures r.Ok? <==> m != JNull
    ensures r.Err? ==> r.error == CannotReadProperty("mesh_id", NullBase)
    ensures r.Ok? ==> r.value.meshId == Member(Defined(m), "mesh_id")
    ensures r.Ok? ==> r.value.coordinates == Member(Defined(m), "coordinates")
    ensures r.Ok? ==> r.value.indices == Member(Defined(m), "indices")
  {
    var mv := Defined(m);
    // Once `m.mesh_id` has been read, `m` is not nullish and the later reads cannot throw.
    var meshId :- Get(mv, "mesh_id");
    Ok(Mesh(meshId, Member(mv, "coordinates"), Member(mv, "indices")))
  }

  /** `items.map(ParseMesh)`: in order, stopping at the first entry that throws. */
  function ParseMeshes(items: seq<Json>): (r: Result<seq<Mesh>>)
    ensures r.Ok? <==> forall i :: 0 <= i < |items| ==> items[i] != JNull
    ensures r.Err? ==> r.error == CannotReadProperty("mesh_id", NullBase)
    ensures r.Ok? ==> |r.value| == |items|
    ensures r.Ok? ==> forall i :: 0 <= i < |items| ==> ParseMesh(items[i]) == Ok(r.value[i])
  {
    if items == [] then Ok([])
    else
      var first :- ParseMesh(items[0]);
      var rest :- ParseMeshes(items[1..]);
      Ok([first] + rest)
  }

  /** The TypeError the element callback throws on `e`, if any: reading `guid` of a
      null entry, or reading the first component of a vector, rotation or color that is
      absent or null, checked in that order. */
  function ElementFault(e: Json): (r: Option<TypeError>)
    ensures r.Some? ==> r.value.CannotReadProperty? && r.value.key in {"guid", "x", "qx", "r"}
    ensures r.Some? && r.value.base == UndefinedBase ==> r.value.key != "guid"
  {
    var ev := Defined(e);
    if e == JNull then Some(CannotReadProperty("guid", NullBase))
    else if IsNullish(Member(ev, "vector"))
    then Some(CannotReadProperty("x", NullishKind(Member(ev, "vector"))))
    else if IsNullish(Member(ev, "rotation"))
    then Some(CannotReadProperty("qx", NullishKind(Member(ev, "rotation"))))
    else if IsNullish(Member(ev, "color"))
    then Some(CannotReadProperty("r", NullishKind(Member(ev, "color"))))
    else None
  }

  /** The element callback of `parseBim`. */
  function ParseElement(e: Json): (r: Result<Element>)
    ensures r.Err? <==> ElementFault(e).Some?
    ensures r.Err? ==> ElementFault(e) == Some(r.error)
    ensures r.Ok? ==>
      var ev := Defined(e);
      var vec, rot, col := Member(ev, "vector"), Member(ev, "rotation"), Member(ev, "color");
      && r.value.guid == Member(ev, "guid")
      && r.value.meshId == Member(ev, "mesh_id")
      && r.value.vector == Vector(Member(vec, "x"), Member(vec, "y"), Member(vec, "z"))
      && r.value.rotation
         == Rotation(Member(rot, "qx"), Member(rot, "qy"), Member(rot, "qz"), Member(rot, "qw"))
      && r.value.elementType == Member(ev, "type")
      && r.value.color == Color(Member(col, "r"), Member(col, "g"), Member(col, "b"), Member(col, "a"))
      && r.value.faceColors == Defined(OrNull(Member(ev, "face_colors")))
      && r.value.info == NewInfo(Member(ev, "info"))
  {
    var ev := Defined(e);
    // Only the first read of `e`, `e.vector`, `e.rotation` and `e.color` can throw;
    // the reads after it on the same base are plain member lookups.
    var guid :- Get(ev, "guid");
    var vec := Member(ev, "vector");
    var x :- Get(vec, "x");
    var rot := Member(ev, "rotation");
    var qx :- Get(rot, "qx");
    var col := Member(ev, "color");
    var r :- Get(col, "r");
    Ok(Element(
      guid,
      Member(ev, "mesh_id"),
      Vector(x, Member(vec, "y"), Member(vec, "z")),
      Rotation(qx, Member(rot, "qy"), Member(rot, "qz"), Member(rot, "qw")),
      Member(ev, "type"),
      Color(r, Member(col, "g"), Member(col, "b"), Member(col, "a")),
      Defined(OrNull(Member(ev, "face_colors"))),
      NewInfo(Member(ev, "info"))))
  }

  /** `items.map(ParseElement)`: in order, stopping at the first entry that throws. */
  function ParseElements(items: seq<Json>): (r: Result<seq<Element>>)
    ensures r.Ok? <==> forall i :: 0 <= i < |items| ==> ElementFault(items[i]).None?
    ensures r.Err? ==>
      exists i :: 0 <= i < |items| && ElementFault(items[i]) == Some(r.error)
        && forall j :: 0 <= j < i ==> ElementFault(items[j]).None?
    ensures r.Ok? ==> |r.value| == |items|
    ensures r.Ok? ==> forall i :: 0 <= i < |items| ==> ParseElement(items[i]) == Ok(r.value[i])
  {
    if items == [] then Ok([])
    else
      var first :- ParseElement(items[0]);
      var rest :- ParseElements(items[1..]);
      Ok([first] + rest)
  }

  /** The conditions under which `parseBim` returns: the decoded value is not null,
      `meshes` and `elements` are arrays, no mesh entry is null, and no element entry
      is null or lacks its vector, rotation or color. */
  predicate Parsable(data: Json) {
    var d := Defined(data);
    && data != JNull
    && IsArray(Member(d, "meshes"))
    && (forall i :: 0 <= i < |Member(d, "meshes").json.items| ==>
          Member(d, "meshes").json.items[i] != JNull)
    && IsArray(Member(d, "elements"))
    && (forall i :: 0 <= i < |Member(d, "elements").json.items| ==>
          ElementFault(Member(d, "elements").json.items[i]).None?)
  }

  /** `parseBim` on the value `JSON.parse` produced. */
  function ParseBim(data: Json): (r: Result<BimFile>)
    ensures r.Ok? <==> Parsable(data)
    ensures data == JNull ==> r == Err(CannotReadProperty("schema_version", NullBase))
    ensures data != JNull && !IsArray(Member(Defined(data), "meshes")) ==>
      r == Err(MapReceiver(Member(Defined(data), "meshes")).error)
    ensures data != JNull && IsArray(Member(Defined(data), "meshes"))
      && JNull in Member(Defined(data), "meshes").json.items
      ==> r == Err(CannotReadProperty("mesh_id", NullBase))
    ensures data != JNull && IsArray(Member(Defined(data), "meshes"))
      && JNull !in Member(Defined(data), "meshes").json.items
      && !IsArray(Member(Defined(data), "elements"))
      ==> r == Err(MapReceiver(Member(Defined(data), "elements")).error)
    ensures data != JNull && IsArray(Member(Defined(data), "meshes"))
      && JNull !in Member(Defined(data), "meshes").json.items
      && IsArray(Member(Defined(data), "elements")) && r.Err?
      ==> var items := Member(Defined(data), "elements").json.items;
          exists i :: 0 <= i < |items| && ElementFault(items[i]) == Some(r.error)
            && forall j :: 0 <= j < i ==> ElementFault(items[j]).None?
    ensures r.Ok? ==>
      var d := Defined(data);
      var meshItems, elementItems := Member(d, "meshes").json.items, Member(d, "elements").json.items;
      && r.value.schemaVersion == Member(d, "schema_version")
      && r.value.info == NewInfo(Member(d, "info"))
      && |r.value.meshes| == |meshItems|
      && (forall i :: 0 <= i < |meshItems| ==> ParseMesh(meshItems[i]) == Ok(r.value.meshes[i]))
      && |r.value.elements| == |elementItems|
      && (forall i :: 0 <= i < |elementItems| ==>
            ParseElement(elementItems[i]) == Ok(r.value.elements[i]))
  {
    var d := Defined(data);
    // Once `data.schema_version` has been read, the other reads of `data` cannot throw.
    var schemaVersion :- Get(d, "schema_version");
    var info := NewInfo(Member(d, "info"));
    var meshItems :- MapReceiver(Member(d, "meshes"));
    var meshes :- ParseMeshes(meshItems);
    var elementItems :- MapReceiver(Member(d, "elements"));
    var elements :- ParseElements(elementItems);
    Ok(BimFile(schemaVersion, info, meshes, elements))
  }

  // --------------------------------------------------------------- encoder

  /** How `JSON.stringify` writes an object (SerializeJSONObject, section 25.5.2 of
      ECMA-262): every own property whose value is not `undefined` becomes a member. */
  function Emit(props: map<string, JsValue>): (r: map<string, Json>)
    ensures r.Keys <= props.Keys
  {
    map k | k in props && props[k].Defined? :: props[k].json
  }

  /** Reading a member back from an emitted object gives the property's value, with
      `undefined` for a property that was left out. */
  lemma EmitMember(props: map<string, JsValue>, k: string)
    ensures Member(Defined(JObject(Emit(props))), k) == if k in props then props[k] else Undefined
  {
  }

  function EncodeVector(v: Vector): (j: Json)
    ensures j.JObject? && j.props.Keys <= {"x", "y", "z"}
    ensures Member(Defined(j), "x") == v.x
    ensures Member(Defined(j), "y") == v.y
    ensures Member(Defined(j), "z") == v.z
  {
    var props := map["x" := v.x, "y" := v.y, "z" := v.z];
    EmitMember(props, "x"); EmitMember(props, "y"); EmitMember(props, "z");
    JObject(Emit(props))
  }

  function EncodeRotation(q: Rotation): (j: Json)
    ensures j.JObject? && j.props.Keys <= {"qx", "qy", "qz", "qw"}
    ensures Member(Defined(j), "qx") == q.qx
    ensures Member(Defined(j), "qy") == q.qy
    ensures Member(Defined(j), "qz") == q.qz
    ensures Member(Defined(j), "qw") == q.qw
  {
    var props := map["qx" := q.qx, "qy" := q.qy, "qz" := q.qz, "qw" := q.qw];
    EmitMember(props, "qx"); EmitMember(props, "qy"); EmitMember(props, "qz"); EmitMember(props, "qw");
    JObject(Emit(props))
  }

  function EncodeColor(c: Color): (j: Json)
    ensures j.JObject? && j.props.Keys <= {"r", "g", "b", "a"}
    ensures Member(Defined(j), "r") == c.r
    ensures Member(Defined(j), "g") == c.g
    ensures Member(Defined(j), "b") == c.b
    ensures Member(Defined(j), "a") == c.a
  {
    var props := map["r" := c.r, "g" := c.g, "b" := c.b, "a" := c.a];
    EmitMember(props, "r"); EmitMember(props, "g"); EmitMember(props, "b"); EmitMember(props, "a");
    JObject(Emit(props))
  }

  function EncodeMesh(m: Mesh): (j: Json)
    ensures j.JObject? && j.props.Keys <= {"meshId", "coordinates", "indices"}
    ensures Member(Defined(j), "meshId") == m.meshId
    ensures Member(Defined(j), "coordinates") == m.coordinates
    ensures Member(Defined(j), "indices") == m.indices
    ensures Member(Defined(j), "mesh_id") == Undefined
  {
    var props := map["meshId" := m.meshId, "coordinates" := m.coordinates, "indices" := m.indices];
    EmitMember(props, "meshId"); EmitMember(props, "coordinates"); EmitMember(props, "indices");
    EmitMember(props, "mesh_id");
    JObject(Emit(props))
  }

  /** The properties of an `Element` instance, under their camelCase names. */
  function ElementProperties(e: Element): map<string, JsValue> {
    map[
      "guid" := e.guid,
      "meshId" := e.meshId,
      "vector" := Defined(EncodeVector(e.vector)),
      "rotation" := Defined(EncodeRotation(e.rotation)),
      "type" := e.elementType,
      "color" := Defined(EncodeColor(e.color)),
      "faceColors" := e.faceColors,
      "info" := Defined(JObject(e.info))]
  }

  function EncodeElement(e: Element): (j: Json)
    ensures j.JObject?
    ensures j.props.Keys
      <= {"guid", "meshId", "vector", "rotation", "type", "color", "faceColors", "info"}
  {
    JObject(Emit(ElementProperties(e)))
  }

  /** Every field of the element is written under its camelCase name. */
  lemma EncodeElementFields(e: Element)
    ensures var j := Defined(EncodeElement(e));
      && Member(j, "guid") == e.guid
      && Member(j, "meshId") == e.meshId
      && Member(j, "type") == e.elementType
      && Member(j, "faceColors") == e.faceColors
      && Member(j, "info") == Defined(JObject(e.info))
  {
    var props := ElementProperties(e);
    EmitMember(props, "guid"); EmitMember(props, "meshId"); EmitMember(props, "type");
    EmitMember(props, "faceColors"); EmitMember(props, "info");
  }

  /** The vector, rotation and colour are written as nested objects. */
  lemma EncodeElementParts(e: Element)
    ensures var j := Defined(EncodeElement(e));
      && Member(j, "vector") == Defined(EncodeVector(e.vector))
      && Member(j, "rotation") == Defined(EncodeRotation(e.rotation))
      && Member(j, "color") == Defined(EncodeColor(e.color))
  {
    var props := ElementProperties(e);
    EmitMember(props, "vector"); EmitMember(props, "rotation"); EmitMember(props, "color");
  }

  /** Nothing is written under the snake_case names `parseBim` reads. */
  lemma EncodeElementHasNoSnakeCase(e: Element)
    ensures var j := Defined(EncodeElement(e));
      Member(j, "mesh_id") == Undefined && Member(j, "face_colors") == Undefined
  {
    var props := ElementProperties(e);
    EmitMember(props, "mesh_id"); EmitMember(props, "face_colors");
  }

  /** `encodeBim`: the tree that `JSON.stringify(bimFile, null, 2)` writes out. */
  function EncodeBim(f: BimFile): (j: Json)
    ensures j.JObject? && j.props.Keys <= {"schemaVersion", "info", "meshes", "elements"}
    ensures Member(Defined(j), "schemaVersion") == f.schemaVersion
    ensures Member(Defined(j), "schema_version") == Undefined
    ensures Member(Defined(j), "info") == Defined(JObject(f.info))
    ensures IsArray(Member(Defined(j), "meshes"))
    ensures var items := Member(Defined(j), "meshes").json.items;
      && |items| == |f.meshes|
      && forall i :: 0 <= i < |f.meshes| ==> items[i] == EncodeMesh(f.meshes[i])
    ensures IsArray(Member(Defined(j), "elements"))
    ensures var items := Member(Defined(j), "elements").json.items;
      && |items| == |f.elements|
      && forall i :: 0 <= i < |f.elements| ==> items[i] == EncodeElement(f.elements[i])
  {
    var meshes := seq(|f.meshes|, i requires 0 <= i < |f.meshes| => EncodeMesh(f.meshes[i]));
    var elements :=
      seq(|f.elements|, i requires 0 <= i < |f.elements| => EncodeElement(f.elements[i]));
    var props := map[
      "schemaVersion" := f.schemaVersion,
      "info" := Defined(JObject(f.info)),
      "meshes" := Defined(JArray(meshes)),
      "elements" := Defined(JArray(elements))];
    EmitMember(props, "schemaVersion"); EmitMember(props, "info");
    EmitMember(props, "meshes"); EmitMember(props, "elements");
    EmitMember(props, "schema_version");
    JObject(Emit(props))
  }
}
