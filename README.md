# .bim importer model

A Dafny model of `dotbim_importer.js`, the JavaScript module that reads and writes
.bim building-geometry files. The module defines seven record classes (`Color`,
`Vector`, `Rotation`, `Mesh`, `Info`, `Element`, `BimFile`), a parser `parseBim` and
an encoder `encodeBim`. The model proves what each one does.

- `js.dfy` (module `Js`) holds the piece of JavaScript the module depends on:
  - the tree `JSON.parse` returns (`Json`);
  - a property read that can yield `undefined` (`JsValue`, `Member`);
  - the TypeError a read of `null` or `undefined` throws (`Get`);
  - looking up `.map` on a value that is not an array (`MapReceiver`);
  - ToBoolean, which decides `v || null` (`Truthy`, `OrNull`);
  - the properties `Object.assign` copies (`AssignedProperties`).
- `dotbim.dfy` (module `DotBim`) holds the records as datatypes, the parser and the
  encoder:
  - `ParseBim` goes from the decoded tree to `Result<BimFile>`. It follows
    JavaScript's evaluation order and reports the first TypeError that the code
    would throw.
  - `EncodeBim` gives the tree that `JSON.stringify` writes for a `BimFile`. Each
    record writes its own camelCase field names. A field whose value is `undefined`
    is left out.
- `dotbim_properties.dfy` (module `DotBimProperties`) holds the properties:
  - the metadata rule for `Info`;
  - the `face_colors || null` rule;
  - what a missing member turns into;
  - the exact result of encoding and then parsing;
  - a worked example file.

The class field `type` is called `elementType` in the model, because `type` is a
Dafny keyword.

The header comment at `dotbim_importer.js:8-11` lists `parseBim` and `encodeBim` as
a pair: one parses .bim JSON into a `BimFile`, the other serialises a `BimFile` to
JSON. A reader could take them to be inverses, but they are not. The encoder writes
`schemaVersion`, `meshId` and `faceColors`, and the parser reads `schema_version`,
`mesh_id` and `face_colors`. The model follows the code:
- `ParseAfterEncode` shows that a parse after an encode always succeeds.
- It gives `Reparsed(f)`, which has an undefined schema version, undefined mesh ids
  and null face colours.
- `RoundTripExactly` states exactly which files come back unchanged.

## Model

| member | source | states |
|---|---|---|
| DotBim.Color | dotbim_importer.js:14-21 | Defines the `Color` record: the four fields `r`, `g`, `b` and `a`, each holding whatever value the parser read, `undefined` included. |
| DotBim.Vector | dotbim_importer.js:23-29 | Defines the `Vector` record: the fields `x`, `y` and `z`, as read. |
| DotBim.Rotation | dotbim_importer.js:31-38 | Defines the `Rotation` record: the quaternion fields `qx`, `qy`, `qz` and `qw`, as read. |
| DotBim.Mesh | dotbim_importer.js:40-46 | Defines the `Mesh` record: `meshId`, `coordinates` and `indices`, as read, with no shape enforced. |
| DotBim.Info | dotbim_importer.js:48-52 | Defines an `Info` instance as its own properties, a map from key to decoded value. |
| DotBim.Element | dotbim_importer.js:54-65 | Defines the `Element` record with its eight fields. The field `type` is named `elementType`. |
| DotBim.BimFile | dotbim_importer.js:67-74 | Defines the `BimFile` record: schema version, file `Info`, and the ordered meshes and elements. |
| DotBim.ParseMesh | dotbim_importer.js:81 | The mesh callback throws exactly on a null entry, with the `mesh_id` read error. Otherwise it copies `mesh_id`, `coordinates` and `indices` verbatim, `undefined` when absent, with no check of their shape. |
| DotBim.ParseMeshes | dotbim_importer.js:81 | `meshes.map` succeeds exactly when no entry is null. It keeps one mesh per entry, in order, and entry i is the parse of input mesh i. |
| DotBim.ParseElement | dotbim_importer.js:82-93 | The element callback throws exactly on a null entry, or when `vector`, `rotation` or `color` is absent or null. The error is the first such read in evaluation order. On success every field is the corresponding member: guid, mesh_id, x/y/z, qx/qy/qz/qw, type, r/g/b/a in those positions, `face_colors || null`, and the copied `info`. |
| DotBim.ParseElements | dotbim_importer.js:82-93 | `elements.map` succeeds exactly when no entry faults. On failure the error is that of the first faulty entry. On success there is one element per entry, in order. |
| DotBim.ParseBim | dotbim_importer.js:76-95 | The parse succeeds exactly when `Parsable` holds: the root is not null, `meshes` and `elements` are arrays, no mesh is null and no element faults. Each failure case gives its own TypeError: a null root, a non-array `meshes` or `elements`, a null mesh, the first faulty element. On success it gives the schema version, the file `Info`, and the meshes and elements pointwise and in order. |
| Js.Get | dotbim_importer.js:79-91 | Defines the property read `base.key`. It throws a TypeError naming the key and the kind of base when the base is null or undefined. Otherwise it yields the member as `Js.Member` reads it. |
| Js.Member | dotbim_importer.js:79-91 | Defines the rule that a missing key reads as `undefined`. So does a key read on a value that is not an object. |
| Js.MapReceiver | dotbim_importer.js:81-82 | Defines the `.map` lookup. An array yields its items. A null or undefined base throws a failed read of `map`. Any other value throws "not a function". |
| Js.Truthy | dotbim_importer.js:90 | Defines ToBoolean on decoded values. Undefined, null, false, +0, -0, NaN and "" are false; every other value, arrays and objects included, is true. |
| Js.OrNull | dotbim_importer.js:90 | The "or null" expression gives `v` when `v` is truthy and null otherwise. So the result is always null or a truthy value. |
| Js.AssignedProperties | dotbim_importer.js:50 | Defines the properties `Object.assign` copies onto a fresh object. Null, undefined, booleans and numbers give none. Strings and arrays give their index properties. An object gives its members, except `__proto__`. |
| DotBim.NewInfo | dotbim_importer.js:48-52 | `new Info(data)` is empty for absent or null data, and never has an own `__proto__` key. |
| DotBim.ElementFault | dotbim_importer.js:83-89 | The error an element entry throws, if it throws. It is a failed read of `guid`, `x`, `qx` or `r`, checked in that order, and a `guid` failure is always on null. |
| DotBim.Parsable | dotbim_importer.js:77-89 | Defines when `parseBim` returns rather than throws. The root is not null, `meshes` and `elements` are arrays, no mesh entry is null, and no element entry faults. |
| DotBim.Emit | dotbim_importer.js:98 | How `JSON.stringify` writes an object's properties: it writes no key the object lacks. |
| DotBim.EmitMember | dotbim_importer.js:98 | In the object `JSON.stringify` writes, reading a property back gives its value, and a property whose value is `undefined` is absent. |
| DotBim.EncodeVector | dotbim_importer.js:23-29 | Writes an object whose only keys are `x`, `y` and `z`, each holding the field, or absent when it is undefined. |
| DotBim.EncodeRotation | dotbim_importer.js:31-38 | Writes an object whose only keys are `qx`, `qy`, `qz` and `qw`, each holding its field. |
| DotBim.EncodeColor | dotbim_importer.js:14-21 | Writes an object whose only keys are `r`, `g`, `b` and `a`, each holding its field. |
| DotBim.EncodeMesh | dotbim_importer.js:40-46 | Writes only the keys `meshId`, `coordinates` and `indices`, each holding its field. It writes no `mesh_id`. |
| DotBim.ElementProperties | dotbim_importer.js:54-65 | Defines the own properties of an `Element` instance, under the class's field names. This is where `elementType` is written under `type`. |
| DotBim.EncodeElement | dotbim_importer.js:54-65 | Writes an object whose keys are among `guid`, `meshId`, `vector`, `rotation`, `type`, `color`, `faceColors` and `info`. |
| DotBim.EncodeElementFields | dotbim_importer.js:54-65 | `guid`, `meshId`, `type`, `faceColors` (a null value stays null) and `info` are written with the element's values. |
| DotBim.EncodeElementParts | dotbim_importer.js:54-65 | `vector`, `rotation` and `color` are written as the encoded nested objects. |
| DotBim.EncodeElementHasNoSnakeCase | dotbim_importer.js:54-65 | No `mesh_id` and no `face_colors` key is written. |
| DotBim.EncodeBim | dotbim_importer.js:97-99 | Writes only `schemaVersion`, `info`, `meshes` and `elements`, with no `schema_version`. The meshes and elements are arrays of the encoded records, one per record, in order. |
| Js.DecimalInjective | dotbim_importer.js:50 | Distinct array indices give distinct property keys. |
| Js.IndexedPropertiesAt | dotbim_importer.js:50 | Copying an array-like source puts item i under the key spelling i. |
| Js.IndexedPropertiesKeys | dotbim_importer.js:50 | Copying an array-like source creates no key other than an index spelling. |
| Js.AssignedPropertiesHaveNoProto | dotbim_importer.js:50 | `Object.assign` onto a fresh object never creates an own `__proto__` property. |
| DotBimProperties.InfoFromSource | dotbim_importer.js:48-52 | `new Info(data)` is empty for absent, null, boolean and number data. For an object it copies every member verbatim except `__proto__`. For an array it holds exactly the index-keyed items. |
| DotBimProperties.ParsedInfosAreClean | dotbim_importer.js:80-91 | No metadata bag in a parsed file has a `__proto__` key. |
| DotBimProperties.FaceColorsRule | dotbim_importer.js:90 | `faceColors` is never undefined. It is `face_colors` when that is truthy, an empty array included, and null when it is absent, null, false, +0, -0 or "". |
| DotBimProperties.MinimalElementParses | dotbim_importer.js:82-93 | An element with only `vector`, `rotation` and `color` objects parses. Its guid, mesh id and type are undefined, `faceColors` is null, and `info` is empty. |
| DotBimProperties.PrimitiveMeshParses | dotbim_importer.js:81 | A mesh entry that is a boolean, number, string or array parses, with all three fields undefined. |
| DotBimProperties.MinimalFileParses | dotbim_importer.js:76-95 | A file with only empty `meshes` and `elements` arrays parses, with an undefined schema version and empty metadata. |
| DotBimProperties.ReparseMesh | dotbim_importer.js:81 | Parsing an encoded mesh gives back the mesh with its id undefined. |
| DotBimProperties.ReadBackComponents | dotbim_importer.js:86-89 | Reading the components of an encoded vector, rotation or colour gives the originals back. |
| DotBimProperties.ParseEncodedShape | dotbim_importer.js:82-93 | Any element object with the members the encoder writes parses to `ReparsedElement(e)`. |
| DotBimProperties.ReparseElement | dotbim_importer.js:82-93 | Parsing an encoded element gives it back with its mesh id undefined, null face colours and its metadata minus `__proto__`. |
| DotBimProperties.NullElementFails | dotbim_importer.js:82-84 | A null element entry, with an empty mesh array, stops the parse with the `guid` read error on null. |
| DotBimProperties.EncodedIsParsable | dotbim_importer.js:76-99 | What `encodeBim` writes always meets the conditions under which `parseBim` returns. |
| DotBimProperties.ParseAfterEncode | dotbim_importer.js:76-99 | Parsing what `encodeBim` writes never throws, and gives `Reparsed(f)`. |
| DotBimProperties.RoundTripExactly | dotbim_importer.js:76-99 | Encoding then parsing gives `f` back exactly when `f` has no schema version, no mesh ids anywhere, null face colours on every element and no `__proto__` metadata. |
| DotBimProperties.ReparseIsIdempotent | dotbim_importer.js:76-99 | After one encode and parse, a further encode and parse changes nothing. |
| DotBimProperties.ExampleMeshParses | dotbim_importer.js:81 | The example's triangle mesh parses with its id, coordinates and indices. |
| DotBimProperties.FullElementParses | dotbim_importer.js:82-93 | An element with every member but `face_colors` parses to those members, with null face colours and its metadata minus `__proto__`. |
| DotBimProperties.ExampleElementParses | dotbim_importer.js:82-93 | The example wall element parses with its values and null face colours. |
| DotBimProperties.SingletonFileParses | dotbim_importer.js:76-95 | A file with one parsable mesh and one parsable element parses to a file holding exactly those two. |
| DotBimProperties.ExampleParses | dotbim_importer.js:76-95 | The one-triangle, one-wall example file parses to the expected `BimFile`. |

## Left out

- The JSON text layer is not modelled. That covers lexing and the SyntaxError of
  `JSON.parse`, and the 2-space formatting of `JSON.stringify`. The model works on
  the decoded tree, and a non-string argument to `JSON.parse` is out of scope.
- Numbers are kept as binary64 bit patterns and passed through untouched. There is
  no float arithmetic. `JSON.stringify` writes -0 as `0` and NaN or an infinity as
  `null`, and the tree-level encoder does not show either change. `JSON.parse`
  yields -0 for `-0` and an infinity for a literal beyond the binary64 range, such
  as `1e400`, and `encodeBim` accepts any `BimFile`, so NaN can reach it as well.
  `ParseAfterEncode` and `RoundTripExactly` hold on the decoded tree; on the text
  they hold only for files with no -0, NaN or infinite number.
- Key order inside objects is not modelled, because objects are maps.
- Property reads are exact only for the keys the importer reads. None of them is a
  property inherited from a built-in prototype. Prototypes and class identity are
  not modelled.
- After `Object.assign` creates an `Info` from a source with a `__proto__` member,
  the new prototype is not modelled. The model keeps only the fact that no such own
  property is created.
- Strings are sequences of Unicode scalar values, where JavaScript strings are
  sequences of UTF-16 code units. A string holding a lone surrogate, which
  `JSON.parse` accepts (for example `"\ud800"`), therefore cannot appear anywhere
  in the model. For a string `Info` source, the model makes one index per scalar
  value where JavaScript makes one per code unit, so the two differ beyond the
  Basic Multilingual Plane.
- The 0-255 colour range, multiple-of-3 coordinate counts and index bounds are not
  checked by the code, so the model does not check them either.
- No element-to-mesh reference resolution is performed, in the code or in the model.
- The scene and geographic exporters are not part of this model.
- DotBim.EncodeElement: the function's own contract states only the key set. The
  member values are stated by `EncodeElementFields`, `EncodeElementParts` and
  `EncodeElementHasNoSnakeCase`.
