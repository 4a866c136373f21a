/**
 What `parseBim` and `encodeBim` guarantee, stated over the model in DotBim.

 The two functions are documented side by side but are not inverses: the encoder
 writes the class field names (`schemaVersion`, `meshId`, `faceColors`) where the
 parser reads the file format's names (`schema_version`, `mesh_id`, `face_colors`).
 The names they share (`info` without its `__proto__` member, `meshes`, `elements`,
 `coordinates`, `indices`, `guid`, `vector`, `rotation`, `type`, `color` and the
 vector, quaternion and colour components) survive a pass through both; the other
 three do not.
 */
module DotBimProperties {
  import opened Js
  import opened DotBim

  // ------------------------------------------------------------- metadata

  /** `new Info(data)`: empty for an absent or null source (and for a boolean or a
      number), a verbatim copy of an object's members except "__proto__", and index
      keys for an array. */
  lemma InfoFromSource(data: JsValue)
    ensures IsNullish(data) ==> NewInfo(data) == map[]
    ensures data.Defined? && (data.json.JBool? || data.json.JNumber?) ==> NewInfo(data) == map[]
    ensures data.Defined? && data.json.JObject? ==>
      NewInfo(data) == data.json.props - {"__proto__"}
    ensures data.Defined? && data.json.JArray? ==>
      var items := data.json.items;
      && (forall i :: 0 <= i < |items| ==>
            Decimal(i) in NewInfo(data) && NewInfo(data)[Decimal(i)] == items[i])
      && (forall k :: k in NewInfo(data) ==> exists i :: 0 <= i < |items| && k == Decimal(i))
    ensures "__proto__" !in NewInfo(data)
  {
    AssignedPropertiesHaveNoProto(data);
    if data.Defined? && data.json.JArray? {
      var items := data.json.items;
      forall i | 0 <= i < |items|
        ensures Decimal(i) in NewInfo(data) && NewInfo(data)[Decimal(i)] == items[i]
      {
        IndexedPropertiesAt(items, i);
      }
      forall k | k in NewInfo(data)
        ensures exists i :: 0 <= i < |items| && k == Decimal(i)
      {
        IndexedPropertiesKeys(items, k);
      }
    }
  }

  /** Every metadata bag of a parsed file lacks the key "__proto__". */
  predicate InfosClean(f: BimFile) {
    && "__proto__" !in f.info
    && forall i :: 0 <= i < |f.elements| ==> "__proto__" !in f.elements[i].info
  }

  lemma ParsedInfosAreClean(data: Json)
    requires ParseBim(data).Ok?
    ensures InfosClean(ParseBim(data).value)
  {
    var f := ParseBim(data).value;
    AssignedPropertiesHaveNoProto(Member(Defined(data), "info"));
    var items := Member(Defined(data), "elements").json.items;
    forall i | 0 <= i < |f.elements|
      ensures "__proto__" !in f.elements[i].info
    {
      assert ParseElement(items[i]) == Ok(f.elements[i]);
      AssignedPropertiesHaveNoProto(Member(Defined(items[i]), "info"));
    }
  }

  // ---------------------------------------------------------- face colours

  /** `e.face_colors || null`: a truthy value is kept as it is, an empty array
      included; an absent member and null, false, zero and "" become null. A parsed
      element's faceColors is never undefined. */
  lemma FaceColorsRule(e: Json)
    requires ParseElement(e).Ok?
    ensures var fc, out := Member(Defined(e), "face_colors"), ParseElement(e).value.faceColors;
      && out.Defined?
      && (Truthy(fc) ==> out == fc)
      && (!Truthy(fc) ==> out == Defined(JNull))
      && (fc == Defined(JArray([])) ==> out == fc)
      && (fc in {Undefined, Defined(JNull), Defined(JBool(false)), Defined(JString("")),
                 Defined(JNumber(Number(0))), Defined(JNumber(Number(0x8000_0000_0000_0000)))}
          ==> out == Defined(JNull))
  {
  }

  // ------------------------------------------------ missing scalar members

  /** An element object holding only its vector, rotation and colour objects parses;
      each missing member reads as undefined, faceColors becomes null and the metadata
      bag is empty. */
  lemma MinimalElementParses(vector: map<string, Json>, rotation: map<string, Json>,
                             color: map<string, Json>)
    ensures var e := JObject(map["vector" := JObject(vector), "rotation" := JObject(rotation),
                                 "color" := JObject(color)]);
      var r := ParseElement(e);
      && r.Ok?
      && r.value.guid == Undefined && r.value.meshId == Undefined
      && r.value.elementType == Undefined
      && r.value.faceColors == Defined(JNull)
      && r.value.info == map[]
  {
  }

  /** A mesh entry of any kind but null parses; a primitive entry has no members. */
  lemma PrimitiveMeshParses(m: Json)
    requires !m.JNull? && !m.JObject?
    ensures ParseMesh(m) == Ok(Mesh(Undefined, Undefined, Undefined))
  {
  }

  /** A file with none of its scalar members parses to an undefined schema version and
      an empty metadata bag. */
  lemma MinimalFileParses()
    ensures ParseBim(JObject(map["meshes" := JArray([]), "elements" := JArray([])]))
      == Ok(BimFile(Undefined, map[], [], []))
  {
  }

  /** An element entry that is null stops the parse with the `guid` read error, even
      when every mesh parses. */
  lemma NullElementFails()
    ensures ParseBim(JObject(map["meshes" := JArray([]), "elements" := JArray([JNull])]))
      == Err(CannotReadProperty("guid", NullBase))
  {
  }

  // ---------------------------------------------------- encode, then parse

  /** What a parse of an encoded element gives back: the member names the two sides
      share carry their values over, while `meshId` is not read (the parser asks for
      `mesh_id`) and `faceColors` is not read (the parser asks for `face_colors`, and
      `undefined || null` is null). */
  function ReparsedElement(e: Element): Element {
    e.(meshId := Undefined, faceColors := Defined(JNull), info := e.info - {"__proto__"})
  }

  function ReparsedMesh(m: Mesh): Mesh {
    m.(meshId := Undefined)
  }

  /** What a parse of an encoded file gives back: `schemaVersion` is not read (the
      parser asks for `schema_version`); meshes and elements as above. */
  function Reparsed(f: BimFile): BimFile {
    BimFile(
      Undefined,
      f.info - {"__proto__"},
      seq(|f.meshes|, i requires 0 <= i < |f.meshes| => ReparsedMesh(f.meshes[i])),
      seq(|f.elements|, i requires 0 <= i < |f.elements| => ReparsedElement(f.elements[i])))
  }

  lemma ReparseMesh(m: Mesh)
    ensures ParseMesh(EncodeMesh(m)) == Ok(ReparsedMesh(m))
  {
  }

  /** Reading the components of an encoded vector, rotation or colour gives them back. */
  lemma ReadBackComponents(e: Element)
    ensures var vec := Defined(EncodeVector(e.vector));
      Vector(Member(vec, "x"), Member(vec, "y"), Member(vec, "z")) == e.vector
    ensures var rot := Defined(EncodeRotation(e.rotation));
      Rotation(Member(rot, "qx"), Member(rot, "qy"), Member(rot, "qz"), Member(rot, "qw"))
      == e.rotation
    ensures var col := Defined(EncodeColor(e.color));
      Color(Member(col, "r"), Member(col, "g"), Member(col, "b"), Member(col, "a")) == e.color
  {
  }

  /** The parse of any element object whose members are those of `EncodeElement(e)`. */
  lemma ParseEncodedShape(j: Json, e: Element)
    requires j.JObject?
    requires Member(Defined(j), "guid") == e.guid
    requires Member(Defined(j), "mesh_id") == Undefined
    requires Member(Defined(j), "vector") == Defined(EncodeVector(e.vector))
    requires Member(Defined(j), "rotation") == Defined(EncodeRotation(e.rotation))
    requires Member(Defined(j), "type") == e.elementType
    requires Member(Defined(j), "color") == Defined(EncodeColor(e.color))
    requires Member(Defined(j), "face_colors") == Undefined
    requires Member(Defined(j), "info") == Defined(JObject(e.info))
    ensures ParseElement(j) == Ok(ReparsedElement(e))
  {
    ReadBackComponents(e);
  }

  lemma ReparseElement(e: Element)
    ensures ParseElement(EncodeElement(e)) == Ok(ReparsedElement(e))
  {
    EncodeElementFields(e);
    EncodeElementParts(e);
    EncodeElementHasNoSnakeCase(e);
    ParseEncodedShape(EncodeElement(e), e);
  }

  /** Parsing what the encoder writes never throws. */
  lemma EncodedIsParsable(f: BimFile)
    ensures Parsable(EncodeBim(f))
  {
    var d := Defined(EncodeBim(f));
    var meshItems := Member(d, "meshes").json.items;
    var elementItems := Member(d, "elements").json.items;
    forall i | 0 <= i < |meshItems|
      ensures meshItems[i] != JNull
    {
      ReparseMesh(f.meshes[i]);
    }
    forall i | 0 <= i < |elementItems|
      ensures ElementFault(elementItems[i]).None?
    {
      ReparseElement(f.elements[i]);
    }
  }

  /** Parsing what the encoder writes never throws, and gives `Reparsed(f)`. */
  lemma ParseAfterEncode(f: BimFile)
    ensures ParseBim(EncodeBim(f)) == Ok(Reparsed(f))
  {
    EncodedIsParsable(f);
    var j := EncodeBim(f);
    var d := Defined(j);
    var r := ParseBim(j).value;
    var g := Reparsed(f);
    forall i | 0 <= i < |r.meshes|
      ensures r.meshes[i] == g.meshes[i]
    {
      ReparseMesh(f.meshes[i]);
    }
    forall i | 0 <= i < |r.elements|
      ensures r.elements[i] == g.elements[i]
    {
      ReparseElement(f.elements[i]);
    }
    assert r.meshes == g.meshes;
    assert r.elements == g.elements;
  }

  /** The files that `Reparsed` leaves unchanged. */
  predicate SurvivesReparse(f: BimFile) {
    && f.schemaVersion == Undefined
    && InfosClean(f)
    && (forall i :: 0 <= i < |f.meshes| ==> f.meshes[i].meshId == Undefined)
    && (forall i :: 0 <= i < |f.elements| ==>
          f.elements[i].meshId == Undefined && f.elements[i].faceColors == Defined(JNull))
  }

  lemma ReparsedIsIdentityExactly(f: BimFile)
    ensures Reparsed(f) == f <==> SurvivesReparse(f)
  {
    var g := Reparsed(f);
    if g == f {
      forall i | 0 <= i < |f.elements|
        ensures "__proto__" !in f.elements[i].info
        ensures f.elements[i].meshId == Undefined && f.elements[i].faceColors == Defined(JNull)
      {
        assert g.elements[i] == f.elements[i];
      }
      forall i | 0 <= i < |f.meshes|
        ensures f.meshes[i].meshId == Undefined
      {
        assert g.meshes[i] == f.meshes[i];
      }
    }
    if SurvivesReparse(f) {
      assert g.info == f.info;
      forall i | 0 <= i < |f.elements|
        ensures g.elements[i] == f.elements[i]
      {
        assert f.elements[i].info - {"__proto__"} == f.elements[i].info;
      }
      assert g.meshes == f.meshes;
      assert g.elements == f.elements;
    }
  }

  /** Encoding and parsing give back the same file exactly when the file has no schema
      version, no mesh ids, null face colours everywhere and no "__proto__" metadata. */
  lemma RoundTripExactly(f: BimFile)
    ensures ParseBim(EncodeBim(f)) == Ok(f) <==> SurvivesReparse(f)
  {
    ParseAfterEncode(f);
    ReparsedIsIdentityExactly(f);
  }

  lemma ReparsedIsFixed(f: BimFile)
    ensures Reparsed(Reparsed(f)) == Reparsed(f)
  {
    var g := Reparsed(f);
    forall i | 0 <= i < |g.elements|
      ensures Reparsed(g).elements[i] == g.elements[i]
    {
      var info := f.elements[i].info;
      assert info - {"__proto__"} - {"__proto__"} == info - {"__proto__"};
    }
    assert Reparsed(g).info == g.info;
    assert Reparsed(g).meshes == g.meshes;
    assert Reparsed(g).elements == g.elements;
  }

  /** After one pass through the encoder and the parser, further passes change nothing. */
  lemma ReparseIsIdempotent(f: BimFile)
    ensures ParseBim(EncodeBim(Reparsed(f))) == Ok(Reparsed(f))
  {
    ParseAfterEncode(Reparsed(f));
    ReparsedIsFixed(f);
  }

  // ------------------------------------------------------ an example file

  function Num(bits: bv64): Json {
    JNumber(Number(bits))
  }

  const Zero := Num(0)
  const One := Num(0x3FF0_0000_0000_0000)
  const Two := Num(0x4000_0000_0000_0000)
  const Three := Num(0x4008_0000_0000_0000)
  const Full := Num(0x406F_E000_0000_0000)  // 255

  /** A one-triangle file with one wall element: {"schema_version":"1.0","info":{},"meshes":[{"mesh_id":"m1",
      "coordinates":[0,0,0,1,0,0,0,1,0],"indices":[0,1,2]}],"elements":[{"guid":"g1",
      "mesh_id":"m1","vector":{"x":1,"y":2,"z":3},"rotation":{"qx":0,"qy":0,"qz":0,
      "qw":1},"type":"Wall","color":{"r":255,"g":0,"b":0,"a":255},"info":{}}]}
      after JSON.parse; 1, 2, 3 and 255 are written as their binary64 patterns. */
  function ExampleDocument(): Json {
    JObject(map[
      "schema_version" := JString("1.0"),
      "info" := JObject(map[]),
      "meshes" := JArray([ExampleMeshDocument()]),
      "elements" := JArray([ExampleElementDocument()])])
  }

  function ExampleMeshDocument(): Json {
    JObject(map[
      "mesh_id" := JString("m1"),
      "coordinates" := JArray([Zero, Zero, Zero, One, Zero, Zero, Zero, One, Zero]),
      "indices" := JArray([Zero, One, Two])])
  }

  function ExampleElementDocument(): Json {
    JObject(map[
      "guid" := JString("g1"),
      "mesh_id" := JString("m1"),
      "vector" := JObject(map["x" := One, "y" := Two, "z" := Three]),
      "rotation" := JObject(map["qx" := Zero, "qy" := Zero, "qz" := Zero, "qw" := One]),
      "type" := JString("Wall"),
      "color" := JObject(map["r" := Full, "g" := Zero, "b" := Zero, "a" := Full]),
      "info" := JObject(map[])])
  }

  function ExampleMesh(): Mesh {
    Mesh(Defined(JString("m1")),
         Defined(JArray([Zero, Zero, Zero, One, Zero, Zero, Zero, One, Zero])),
         Defined(JArray([Zero, One, Two])))
  }

  function ExampleElement(): Element {
    Element(
      Defined(JString("g1")),
      Defined(JString("m1")),
      Vector(Defined(One), Defined(Two), Defined(Three)),
      Rotation(Defined(Zero), Defined(Zero), Defined(Zero), Defined(One)),
      Defined(JString("Wall")),
      Color(Defined(Full), Defined(Zero), Defined(Zero), Defined(Full)),
      Defined(JNull),
      map[])
  }

  function ExampleFile(): BimFile {
    BimFile(Defined(JString("1.0")), map[], [ExampleMesh()], [ExampleElement()])
  }

  lemma ExampleMeshParses()
    ensures ParseMesh(ExampleMeshDocument()) == Ok(ExampleMesh())
  {
  }

  /** An element object with every member but `face_colors` parses to an element that
      holds those members, null face colours and the metadata minus "__proto__". */
  lemma FullElementParses(guid: Json, meshId: Json, vector: map<string, Json>,
                          rotation: map<string, Json>, elementType: Json,
                          color: map<string, Json>, info: map<string, Json>)
    ensures var e := JObject(map[
        "guid" := guid, "mesh_id" := meshId, "vector" := JObject(vector),
        "rotation" := JObject(rotation), "type" := elementType, "color" := JObject(color),
        "info" := JObject(info)]);
      var vec, rot, col := Defined(JObject(vector)), Defined(JObject(rotation)), Defined(JObject(color));
      ParseElement(e) == Ok(Element(
        Defined(guid), Defined(meshId),
        Vector(Member(vec, "x"), Member(vec, "y"), Member(vec, "z")),
        Rotation(Member(rot, "qx"), Member(rot, "qy"), Member(rot, "qz"), Member(rot, "qw")),
        Defined(elementType),
        Color(Member(col, "r"), Member(col, "g"), Member(col, "b"), Member(col, "a")),
        Defined(JNull), info - {"__proto__"}))
  {
    FullElementMembers(guid, meshId, vector, rotation, elementType, color, info);
  }

  lemma FullElementMembers(guid: Json, meshId: Json, vector: map<string, Json>,
                           rotation: map<string, Json>, elementType: Json,
                           color: map<string, Json>, info: map<string, Json>)
    ensures var ev := Defined(JObject(map[
        "guid" := guid, "mesh_id" := meshId, "vector" := JObject(vector),
        "rotation" := JObject(rotation), "type" := elementType, "color" := JObject(color),
        "info" := JObject(info)]));
      && Member(ev, "guid") == Defined(guid)
      && Member(ev, "mesh_id") == Defined(meshId)
      && Member(ev, "vector") == Defined(JObject(vector))
      && Member(ev, "rotation") == Defined(JObject(rotation))
      && Member(ev, "type") == Defined(elementType)
      && Member(ev, "color") == Defined(JObject(color))
      && Member(ev, "face_colors") == Undefined
      && Member(ev, "info") == Defined(JObject(info))
  {
  }

  /** The element has no face colours, so it gets null ones. */
  lemma ExampleElementParses()
    ensures ParseElement(ExampleElementDocument()) == Ok(ExampleElement())
  {
    FullElementParses(JString("g1"), JString("m1"), map["x" := One, "y" := Two, "z" := Three],
                      map["qx" := Zero, "qy" := Zero, "qz" := Zero, "qw" := One], JString("Wall"),
                      map["r" := Full, "g" := Zero, "b" := Zero, "a" := Full], map[]);
  }

  /** A file with one mesh and one element, each of which parses, parses to a file
      holding the two. */
  lemma SingletonFileParses(schemaVersion: Json, info: Json, mesh: Json, element: Json)
    requires ParseMesh(mesh).Ok? && ParseElement(element).Ok?
    ensures ParseBim(JObject(map[
        "schema_version" := schemaVersion, "info" := info,
        "meshes" := JArray([mesh]), "elements" := JArray([element])]))
      == Ok(BimFile(Defined(schemaVersion), NewInfo(Defined(info)),
                    [ParseMesh(mesh).value], [ParseElement(element).value]))
  {
    var doc := JObject(map[
        "schema_version" := schemaVersion, "info" := info,
        "meshes" := JArray([mesh]), "elements" := JArray([element])]);
    var d := Defined(doc);
    assert Member(d, "schema_version") == Defined(schemaVersion);
    assert Member(d, "info") == Defined(info);
    assert Member(d, "meshes") == Defined(JArray([mesh]));
    assert Member(d, "elements") == Defined(JArray([element]));
    assert Parsable(doc);
    var r := ParseBim(doc);
    assert r.value.meshes == [ParseMesh(mesh).value];
    assert r.value.elements == [ParseElement(element).value];
  }

  /** The example parses with every value copied and null face colours. */
  lemma ExampleParses()
    ensures ParseBim(ExampleDocument()) == Ok(ExampleFile())
  {
    ExampleMeshParses();
    ExampleElementParses();
    SingletonFileParses(JString("1.0"), JObject(map[]), ExampleMeshDocument(), ExampleElementDocument());
  }
}
