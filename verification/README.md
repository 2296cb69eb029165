# Topologic's metadata codec and dimension ladder, in Dafny

Topologic renders polytopes and parametric surfaces of any dimension. A
scene is a ladder of template levels `state<Q,d>`, `state<Q,d-1>`, …,
`state<Q,2>`. Each level from 3 up holds a camera (cartesian `from`, polar
`fromp`, target `to`), an affine transformation and a projection.
`state<Q,2>` holds a 2-dimensional transformation and the
dimension-independent settings: polar mode, the parameter bag, the three
colours, the id prefix and the bound renderer. The model keeps those settings
in a base tier and gives every rung from 2 up the same `Level` record (see
the level-2 note below).

This project models:

- the encoder `metadata()`, which writes one camera element per level, top
  level first, then the base tier's elements;
- the two decoders `parse` (an XML document and a JSON value), which walk
  the ladder from the top dimension down to the 1-D fix point that reads
  the scalars;
- `parseModel` (both forms), which reads a model request and dispatches it
  through `updateModel::apply` / `pass`;
- `setMatrixCell`;
- the constructors, `updateMatrix()` and the renderer's `name()`;
- the fixed order of output steps in the SVG and GL frame producers.

Modules:

| file | module | contents |
|---|---|---|
| wrappers.dfy | Wrappers | `Option` |
| text.dfy | Text | decimal printing, `std::stoi` (32-bit range), XPath `number()` |
| scene.dfy | Scene | the ladder `State(top, levels, base)`, constructors, `Name` |
| ladder.dfy | Ladder | `updateMatrix()` as `Refresh` |
| metadata.dfy | Metadata | the element document and `metadata()`, axis naming |
| dispatch.dfy | Dispatch | `apply`, `pass`, the factory choice, `setMatrixCell` |
| xml_codec.dfy | XmlCodec | XML `parse` (rungs and fix point) and `parseModel` |
| json_codec.dfy | JsonCodec | JSON `parse` (rungs and fix point) and `parseModel` |
| round_trip.dfy | RoundTrip | decode after encode, for the scene and the model request |
| frames.dfy | Frames | the SVG and GL frames as event traces |

Modelling choices:

- The ladder is a map from dimension k (2..top) to a `Level` record, plus a
  `Base` record. Numbers are `real` and are never printed or parsed
  concretely. Their text form is a `Literals` pair `(show, read)`, where
  `read` returning `None` stands for the exception `std::stold` throws.
- The XML document is the flat sequence of Topologic elements in document
  order, each a name and its attributes in order. `//x/@a` is the first
  element named `x` that has `a`. A following sibling is a later element.
  `@depth = d` is compared through libxml2's conversion of the attribute
  to a number (`Text.XPathNumber`). Beyond XPath 1.0's digits and optional
  fraction, that conversion also accepts an `e`/`E` exponent, so
  `depth="3e0"` matches dimension 3.
- Nothing in the decoders catches `std::stold` or `std::stoi` exceptions.
  A malformed literal therefore ends the decode with the writes made so
  far (`Outcome.Threw`). It is not skipped. The code's own comment ("returns
  'true' if the code didn't blow up … 'false' if it did") suggests a
  boolean; the model follows what the code does.
- `pass` returns whether a renderer is bound, not a fixed false.
- The GL frame sets the depth mask to `surface.alpha < 1`, as written.
  Depth writes are therefore on for a translucent surface.
- Level 2 has a camera in the model, but `state<Q,2>`
  (include/topologic/state.h:404-452) has none, only a transformation. The
  decoders disagree with that class. The generic XML step at dimension 2
  writes `from` and `fromp` (include/topologic/parse.h:454-481). Their fix
  points take a `state<Q,1>` (include/topologic/parse.h:164, 543, 750), and
  `state.h` defines no such class. The two headers come from different
  versions of the class ladder. The model follows the decoders: every rung,
  level 2 included, is the same `Level` record. Level 2's camera and its
  starting value are a modelling choice (see `Scene.DefaultPolar` under
  "Left out"). The encoder writes cameras for levels top..3 only, and
  `updateMatrix()` never visits level 2, so that camera reaches no output.
- The encoder writes the export multiplier and the id prefix. The decoder
  never reads them back, so the round trip leaves them as the target had
  them.
- `(int)` casts of numbers truncate toward zero (`Scene.Truncate`).

## Model

| member | source | states |
|---|---|---|
| Text.StoiOfShowNat | include/topologic/parse.h:652-658 | `stoi` on a printed count followed by a non-digit, such as the `D` suffix, reads the count back. |
| Text.StoiNeedsADigit | include/topologic/parse.h:652 | `stoi` on text without a digit fails, so a depth attribute without digits throws. |
| Text.XPathNumberOfShowNat | include/topologic/parse.h:486-487 | The printed dimension compares equal to that dimension in `@depth = d`. |
| Text.XPathNumberWithExponent | include/topologic/parse.h:486-487 | A count written with an exponent, `<n>e<e>`, compares equal to n × 10^e, so `3e0` selects dimension 3. |
| Scene.Truncate | include/topologic/parse.h:767-778 | The `(int)` conversion lands at most one unit from the number, toward zero, on either sign. |
| Scene.Name | include/topologic/state.h:130-135 | A renderer's name is its decimal depth, a dash and its id, and its leading digit run is exactly the depth. |
| Scene.NameIgnoresFamily | include/topologic/state.h:237-242 | Both renderer families name a renderer the same way, and `stoi` of the name gives back the depth. |
| Scene.DefaultPolar | include/topologic/state.h:266-353 | The polar camera starts as (2, 1.57, …) above dimension 3 and as (3, 1, 1) at dimension 3. |
| Scene.NewLevel | include/topologic/state.h:256-273 | A new level has vectors of its dimension and a (d+1)×(d+1) matrix. |
| Scene.NewState | include/topologic/state.h:408-420 | A new scene is valid, in polar mode, has no renderer, and has the stated colours, export multiplier, radius and precision. Each rung starts with a zero cartesian camera and target, the default polar camera and the identity. Level 2's camera is the modelling choice named under "Left out". |
| Ladder.Refresh | include/topologic/state.h:285-293 | `updateMatrix()` from level k visits k, k-1, …, 3 in that order and never level 2. It copies the polar camera into the cartesian one only in polar mode, and recomputes each view. Nothing else changes. |
| Ladder.RefreshIdempotent | include/topologic/state.h:365-372 | Refreshing twice gives the same scene as refreshing once. |
| Metadata.AlphabetIndexed | include/topologic/state.h:42 | The alphabet has 52 letters, each at a distinct position. |
| Metadata.AxisNameAsWrittenAt52 | include/topologic/state.h:309-319 | As written, axis 52 is named by the NUL terminator rather than `d-52`. |
| Metadata.AxisName | include/topologic/state.h:309-319 | Axes below 52 are named by their own letter; higher axes are `d-<i>`. No name contains NUL. |
| Metadata.AxisNameCorrected | include/topologic/state.h:309-319 | Distinct axes have distinct names. The corrected naming agrees with the code everywhere except axis 52. |
| Metadata.ThetaNamesDistinct | include/topologic/state.h:300-307 | Angle names are pairwise distinct and never `radius`. |
| Metadata.PolarAttrs | include/topologic/state.h:300-307 | In polar mode a camera has exactly d attributes: the radius, then `theta-1..theta-(d-1)` with their values. |
| Metadata.CartesianAttrs | include/topologic/state.h:309-319 | In cartesian mode a camera has exactly d attributes, one per axis, named by `AxisName`. |
| Metadata.PolarCameraRead | include/topologic/parse.h:454-467 | A decoder finds each polar value of a written polar camera under its own name. |
| Metadata.CartesianCameraRead | include/topologic/parse.h:469-481 | A decoder finds each coordinate of a written cartesian camera, and finds no radius or angle there. |
| Metadata.Metadata | include/topologic/state.h:295-323 | The document of level k has one camera per level k..3, in descending order, followed by the base tier's elements. |
| Dispatch.Apply | include/topologic/parse.h:89-101 | `apply` releases any bound renderer before installing the new one, returns true, and changes nothing else. |
| Dispatch.Pass | include/topologic/parse.h:114 | `pass` changes nothing and returns true exactly when a renderer is bound. |
| Dispatch.With | include/topologic/parse.h:668 | A known request binds a renderer of that depth, render depth and type. Any other request leaves the scene unchanged. |
| Dispatch.SetMatrixCell | include/topologic/parse.h:134-168 | The result is true iff 2 ≤ sd ≤ d. When true, only cell (x, y) of rung sd changes; when false, nothing changes. |
| XmlCodec.CameraAxesEffect | include/topologic/parse.h:455-481 | Within one camera element, a radius or angle writes `fromp[i]` and skips the letter. Otherwise the axis letter writes `from[i]`. An absent axis keeps its value. |
| XmlCodec.CamerasLastWriter | include/topologic/parse.h:454-483 | Only cameras with exactly d attributes are used. For each axis, the last such element that gives it a value wins; with none, the axis keeps its value. |
| XmlCodec.CameraAxesAborts | include/topologic/parse.h:455-481 | Reading one camera element from axis i throws exactly when some axis from i on has a radius, angle or letter literal that `stold` cannot read. |
| XmlCodec.CamerasAbort | include/topologic/parse.h:454-483 | The camera pass of level d throws exactly when some camera with exactly d attributes has an unreadable axis literal, wherever it stands among the cameras. |
| XmlCodec.IdentityResets | include/topologic/parse.h:486-495 | Any `transformation` with `@depth = d` and `matrix="identity"` resets the matrix to the identity. With none, the matrix is unchanged. |
| XmlCodec.CellsFromEffect | include/topologic/parse.h:499-508 | Only cells `e<i>-<j>` with 0 ≤ i, j ≤ d are read. A present cell takes its literal; an absent one keeps its value. |
| XmlCodec.CellElementsLastWriter | include/topologic/parse.h:497-512 | Among elements with (d+1)² attributes, the last one that gives a cell a value wins. |
| XmlCodec.CellsFromAborts | include/topologic/parse.h:499-508 | Reading one element's cells from (i, j) on throws exactly when some cell from (i, j) on, in row-major order, carries an unreadable literal. |
| XmlCodec.CellElementsAbort | include/topologic/parse.h:497-512 | The matrix pass of level d throws exactly when some element with (d+1)² attributes has an unreadable cell literal. |
| XmlCodec.ParseRungAborts | include/topologic/parse.h:454-512 | Level d's step throws exactly when a matching camera or matrix element has an unreadable literal, whatever the level held before. |
| XmlCodec.ScalarsFieldwise | include/topologic/parse.h:548-612 | The fix point finishes iff every scalar element present carries a readable literal. It then sets each field from the first element carrying it: numbers as read, counts truncated toward zero, `polar`/`yes` flags, each colour channel on its own; a field with no element keeps its value. |
| XmlCodec.ScalarsUntouched | include/topologic/parse.h:548-612 | A document without any scalar element leaves the base tier as it was. |
| XmlCodec.MalformedLiteralAborts | include/topologic/parse.h:549-551 | An unreadable precision literal aborts the fix point before it writes anything. |
| XmlCodec.Parse | include/topologic/parse.h:439-515 | An invalid document returns false and changes nothing. On a valid document, a decode that returns at all returns true. Levels above d are untouched, and the scene stays valid. When it throws is stated by `XmlCodec.ParseThrows`. |
| XmlCodec.DescendAborts | include/topologic/parse.h:514 | Once the fix point or any level's step from d down throws, the whole chain of calls throws. |
| XmlCodec.DescendThrows | include/topologic/parse.h:514 | The chain of calls from level d down throws exactly when the fix point or some level's step from d down throws. |
| XmlCodec.ParseThrows | include/topologic/parse.h:439-612 | A decode throws exactly when the document is valid and some scalar element present carries an unreadable literal, or some level from d down has a matching camera or matrix element with one. |
| XmlCodec.ParseByRung | include/topologic/parse.h:439-515 | When no literal fails, each rung holds what its own step made of it and the base holds what the fix point made of it. |
| XmlCodec.FirstModel | include/topologic/parse.h:651 | The first model element is found iff some element is named `model` and has both `depth` and `type`, and what is found is the first such element in document order. |
| XmlCodec.ModelRequest | include/topologic/parse.h:646-664 | With no model element nothing is requested. The request is malformed exactly when the depth, or a present render depth, has no `stoi` reading. Otherwise it asks for the element's type in the format of `//topologic:coordinates/@format` (`cartesian` when that is empty), at the depth `stoi` reads, and at the render depth it states (the depth when it is absent) after the render-depth rule. |
| XmlCodec.ParseModel | include/topologic/parse.h:641-671 | Only the bound renderer can change. An invalid document or no model element gives false. A malformed count throws. A known request binds its renderer; an unknown one passes. |
| JsonCodec.Overlay | include/topologic/parse.h:699-711 | A fitting camera array writes each numeric entry and keeps each non-numeric one. |
| JsonCodec.CameraArrays | include/topologic/parse.h:697-712 | Camera arrays write only the vector the `polar` flag picks. Target, matrix and view stay unchanged. |
| JsonCodec.CameraArraysLastWriter | include/topologic/parse.h:697-712 | Each coordinate takes the entry of the last array of length d that has a number there; with none, it keeps its value. |
| JsonCodec.Flat | include/topologic/parse.h:720-722 | The row-major index i*(d+1)+j stays inside a (d+1)² array. |
| JsonCodec.TransformationArraysLastWriter | include/topologic/parse.h:714-728 | Cell (i, j) takes entry i*(d+1)+j of the last array of length (d+1)² with a number there; with none, it keeps its value. |
| JsonCodec.Parse | include/topologic/parse.h:690-731 | The result is true iff the value is an object. A non-object changes nothing. Levels above d, the mode and the renderer are untouched. |
| JsonCodec.ParseByRung | include/topologic/parse.h:690-731 | Each rung holds what its own step made of it, and the base holds the fix point's scalars. |
| JsonCodec.DecodeColours | include/topologic/parse.h:787-810 | A colour is replaced only by an array of at least five entries whose entries 1..4 are all numbers; otherwise it stays. |
| JsonCodec.ParseModel | include/topologic/parse.h:834-866 | A non-object gives false. Only the renderer can change. A known request binds its renderer; an unknown one passes. |
| JsonCodec.ModelRequestDefaults | include/topologic/parse.h:839-842 | Without members the request is a cartesian cube of depth 4 rendered at depth 4. |
| JsonCodec.ModelRequestMember | include/topologic/parse.h:844-862 | A member of the wrong type counts as missing. A member of the right type overrides its default. |
| JsonCodec.Fix | include/topologic/parse.h:750-812 | The JSON fix point never touches the mode, export multiplier, renderer or id prefix, and an object without members changes nothing. |
| JsonCodec.DecodeMeasures | include/topologic/parse.h:755-766 | Radius, minor radius, constant and precision take a number member's value; any other member, or none, keeps the old value. |
| JsonCodec.DecodeCounts | include/topologic/parse.h:767-778 | Iterations, seed, functions and flame coefficients take a number member truncated toward zero; anything else keeps the old count. |
| JsonCodec.DecodeFlags | include/topologic/parse.h:780-785 | The rotation flags take the truth of any non-null member; a null or missing member keeps the old flag. |
| JsonCodec.FixIdempotent | include/topologic/parse.h:750-812 | Applying the fix point of one object twice is the same as applying it once. |
| JsonCodec.ParseEmpty | include/topologic/parse.h:750-812 | An empty object decodes to true and changes nothing. |
| RoundTrip.NewSceneFaithful | include/topologic/state.h:408-420 | The numbers a new scene writes (its default cameras, radius, precision and colours) all print and read back under the decimal literals, so the round-trip premise can be met. |
| RoundTrip.CameraRestores | include/topologic/parse.h:454-483 | Reading a written camera element back restores the camera vector of the written mode and keeps the other one. |
| RoundTrip.ScalarsOfMetadata | include/topologic/state.h:422-438 | The fix point over a scene's document restores the mode, radius, precision and three colours, and throws nothing. |
| RoundTrip.XmlRoundTrip | include/topologic/state.h:295-323 | Decoding a scene's document into any scene of the same height returns true. Every rung from 3 up gets the written camera, and the base gets the written scalars. Everything else is unchanged. |
| RoundTrip.XmlSelfRoundTrip | include/topologic/parse.h:439-515 | Decoding a scene's own document into it returns true and leaves it unchanged. |
| RoundTrip.MetadataModel | include/topologic/state.h:427-430 | The first model element of a scene's document is the bound renderer's, or there is none. |
| RoundTrip.ModelElementRead | include/topologic/parse.h:652-658 | `stoi` reads the written `<n>D` counts back as the depth and render depth. |
| RoundTrip.ModelRoundTrip | include/topologic/parse.h:646-664 | A scene's document requests its bound renderer in the cartesian format, after the render-depth rule. Without a renderer it requests nothing. |
| Frames.SvgStepsOrder | include/topologic/state.h:106-123 | The vector frame clears first. The title precedes the metadata, which precedes the style. The solid pass precedes the wireframe path. |
| Frames.SvgFrameOrder | include/topologic/state.h:99-124 | A whole vector frame: a refresh event appears only when asked, and the output is cleared next. The title is the renderer's name, and the metadata is that of the refreshed scene, written before the style. The solid precedes the wireframe path. |
| Frames.GlFrameOpens | include/topologic/state.h:172-206 | A GL frame refreshes first exactly when asked, then clears the output, sets the clear colour to the background, clears the buffers and pushes the matrix, all before the wireframe pass. In 3-D the depth test and the camera's look-at come after the push and before the wireframe. |
| Frames.GlFrameCloses | include/topologic/state.h:172-232 | A GL frame ends with the buffer swap, after the solid pass, the matrix pop and the flush in that order. No refresh happens past the start, and outside 3-D no depth test or look-at appears. |
| Frames.GlDrawState | include/topologic/state.h:172-232 | Wireframe and solid are each drawn once, wireframe first. The wireframe has the depth mask on and its colour. Between the passes the specular, shininess and emission materials are set, in that order. The solid has mask = (surface alpha < 1) and the surface colour. |
| Frames.GlMaterials | include/topologic/state.h:207-225 | After the wireframe pass, the specular, shininess and emission materials are set in that order, all before the solid pass. |

## Left out

- The libxml2 layer: parser set-up, namespace registration (including the
  constructor setting `valid` even when registration fails), XPath
  contexts and memory. The document is the abstract element sequence. A
  `[1]` step over several parents, which can select several nodes, is not
  modelled.
- Double formatting and `std::stold` precision. They are the `Literals`
  parameter. The round trip assumes only that the finitely many numbers a
  scene writes print non-empty and read back exactly (`FaithfulFor`); a new
  scene meets that under decimal literals (`NewSceneFaithful`).
- Polar-to-cartesian conversion, the affine identity and the projection
  matrices. They come from vector code outside this core and are the
  `Geometry` parameter and the abstract `View`.
- The JSON library's `(bool)` conversion is a parameter (`Truth`). An
  out-of-range double-to-`int` conversion is undefined in C++ and is not
  modelled.
- `parse.h` and `state.h` have no JSON encoder, so there is no JSON round trip.
- `efgy::geometry::with` and the model generators are foreign code. They
  are the `Catalogue` predicate.
- `Scene.DefaultPolar`: the polar camera (2, 1.57) it gives level 2, like
  level 2's cartesian camera and target, has no constructor in `state.h`
  behind it. `state<Q,2>` (include/topologic/state.h:404-452) declares no
  camera. The value follows the generic constructor
  (include/topologic/state.h:266-353) at dimension 2 and is a modelling
  choice. Only the decoders write it, and nothing reads it.
- `Dispatch.Bounded`: the only thing assumed about that predicate is that it
  knows no negative depth or render depth. `with` matches a request against
  the unsigned dimensions it was instantiated for, so a negative request
  never matches. Which requests it does know is left open.
- `Text.XPathNumber`: libxml2 reads at most 20 significant fraction digits
  and stops growing the exponent past 1000000. Both limits only matter in
  floating point and are not modelled; the value is exact.
- The SVG style's text: the ×100 percentage form of the colours and the
  header markup. The frame keeps the colours and selector as values.
- Actual GL calls and material constants. Only their order is kept, and
  the geometry a pass draws is one event.
- `Dispatch.SetMatrixCell`: requires the cell indices to lie inside the
  target rung's matrix, because the C++ writes out of bounds otherwise
  (undefined behaviour).
- `XmlCodec.CameraAxesEffect`: uses the corrected naming `d-52` at axis 52.
  As written, a cartesian camera with no polar value at axis 52 builds the
  XPath text `@` (the NUL ends the string), which does not parse;
  `lookup` (include/topologic/parse.h:406-414) then returns null and
  `evaluate` (include/topologic/parse.h:280-286) dereferences it. That
  undefined behaviour is not modelled.
- `XmlCodec.AxisSource`: reads axis 52 under `d-52`, the corrected name,
  for the same reason.
- `Metadata.CartesianAttrs`: names axis 52 `d-52`, the corrected name,
  rather than the NUL character the code writes.
- `Frames.SvgFrameOrder`: states the order and contents of the steps but
  not the markup text between them.

## Findings

| source | as written | input that shows it | evidently intended | confidence | as-written member | corrected member |
|---|---|---|---|---|---|---|
| include/topologic/state.h:311 | Axis i is named by `cartesianDimensions[i]` when `i < sizeof(cartesianDimensions)`. `sizeof` counts the terminating NUL, so the bound is 53 (the decoder at include/topologic/parse.h:469 uses the same bound). | A cartesian scene of dimension 53 or more. The encoder writes axis 52 as an attribute named by the NUL character. The decoder builds the XPath text `@` for it, which does not parse, so `evaluate` dereferences a null result (include/topologic/parse.h:280-286, 406-414). | Letters for axes 0..51, `d-52` from axis 52 on, giving every axis a distinct printable name. | not executed | Metadata.AxisNameAsWrittenAt52 | Metadata.AxisNameCorrected |
