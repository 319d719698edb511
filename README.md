# mit2tungsten converter core in Dafny

This project models the `Convertor` class of `convert.py`. The class turns a
Mitsuba-style XML scene into the JSON scene document of the Tungsten
renderer. It walks the direct children of the root element and hands each
one to a handler chosen by its tag:

- `integrator` goes to `parseIntegrator`;
- `sensor` goes to `parseCamera`;
- `bsdf` goes to `parseBsdfs`;
- `shape` goes to `parseShapes`;
- `emitter` goes to `parseEmitter`.

Each handler fills a dict key by key. Later children overwrite earlier
ones. The results are stored into, or appended to, the scene dict in
place.

The XML tree is an immutable `Node(tag, attrs, children)` value (`Xml`).
ElementTree's `.//*[@name=X]` search is the function `Xml.Find`: the first
element in preorder among the strict descendants of a node whose `name`
attribute is X.

The output is a `Json` value (`Values`). Every exception that the
converter's own statements can raise (a missing key, a failed `assert`,
a conversion of a string, an index out of range, a list times a float,
a missing element) is a value of `Error`; the interpreter's own
recursion limit is not modelled. Handlers return a `Result`.

The mutable parts are classes:
- `Scenes.Scene` is the scene dict.
- `Scenes.Primitive` is the primitive dict that `parseShapes` shares with the walk.

Each `for child in xml` loop has two forms:
- a tail-recursive specification function (`IntegratorLoop`,
  `TransformLoop`, `CameraLoop`, `RoughLoop`, `ShapeLoop`, `Walk`);
- a method with a `while` loop (`ParseIntegrator`, `ParseTransform`,
  `ParseCamera`, `ParseBsdfs`, `ParseShapes`, `ReadRecursively`). Each
  method is proved equal to its specification function.

The source's promises are proved as lemmas about the specification
functions. They cover:
- last-writer-wins;
- exactly which keys appear;
- when each handler raises;
- what the walk does to the scene's lists.

When a walk raises, the scene state at that moment is kept. This makes
visible that an emitter's entry is appended before the walk fails.

`float()` and `int()` of a string are opaque partial functions. The
numerics of the transform decomposition are opaque total functions. Both
are held in a `Lib` value passed to every operation (`Values.Lib`).

## Model

| member | source | states |
|---|---|---|
| Text.Tokens | convert.py:31 | `str.split()` with no argument yields only non-empty pieces free of whitespace |
| Text.TokensOfUnwords | convert.py:31 | splitting words joined by single spaces gives those words back (the round trip of `split()`) |
| Text.TokensAtSeparator | convert.py:31 | a separator cuts the text in two: the tokens of the whole are the tokens before it followed by the tokens after it |
| Text.WordTokens | convert.py:31 | a single word splits into itself alone; with `TokensAtSeparator` this fixes `split()` on every string |
| Text.SplitOn | convert.py:90 | `str.split(',')` yields at least one piece, no piece contains the separator, and there are two or more pieces exactly when the separator occurs |
| Text.JoinSplit | convert.py:90 | joining the pieces of `split(sep)` with `sep` rebuilds the string |
| Text.SplitJoin | convert.py:90 | splitting a join of separator-free pieces gives the pieces back |
| Text.LastIndexOf | convert.py:251-253 | the position found holds the character and none follows it, and there is none exactly when the character does not occur (the `rfind` behind `basename` and `splitext`) |
| Text.BaseName | convert.py:251 | `osp.basename` is the slash-free suffix that follows the last `/` |
| Text.Extension | convert.py:253 | `osp.splitext`'s extension is empty when the name has no dot; a non-empty extension is a suffix of the name that starts with its only dot, after some character that is not a dot |
| Text.XmlExtension | convert.py:253-255 | `osp.splitext` gives ".xml" exactly when the name ends in ".xml" after some character that is not a dot |
| Values.Lookup | convert.py:234 | `d[key]` has a value exactly when the key is in the dict, and it is the dict's value there |
| Xml.FindIn | convert.py:21 | a search among a list of elements and their descendants finds only an element whose `name` is X |
| Xml.Find | convert.py:21 | `.//*[@name=X]` finds only an element whose `name` is X |
| Xml.FindInIsFirstInPreorder | convert.py:21 | the search over a list of elements finds the first element named X in document (pre)order |
| Xml.FindIsFirstDescendant | convert.py:21 | `.//*[@name=X]` finds the first strict descendant in preorder whose name is X, finds nothing only when none is so named, and never finds the node itself |
| Xml.Attr | convert.py:14 | `e.attrib[key]` yields the attribute exactly when the key is present, and otherwise raises KeyError(key) |
| Xml.FloatAttr | convert.py:66 | `float(e.attrib[key])` succeeds exactly when the key is present and its text converts, and then yields that value; a missing key is a KeyError, a bad text a ValueError |
| Xml.IntAttr | convert.py:23 | `int(e.attrib[key])` succeeds exactly when the key is present and its text converts, and then yields that value; a missing key is a KeyError, a bad text a ValueError |
| Xml.IntParam | convert.py:21-23 | an integer parameter (`maxDepth` here, `sampleCount` at lines 81-83) is absent exactly when the node has no descendant of that name; it converts exactly when that element's `value` is present and converts with `int` |
| Colors.Rgb | convert.py:87-97 | a parsed colour has three channels; a value without a comma always fails, with TypeError when `float(value)` succeeds (a list times a float) and ValueError when it does not |
| Colors.Fill | convert.py:92-93 | a fill that goes through leaves exactly three channels |
| Colors.FillSpec | convert.py:92-93 | the enumerate loop succeeds exactly when there are at most three pieces and every piece converts; piece k lands in channel k and the other channels keep their value; the first piece that does not convert raises ValueError, and a fourth piece after three that convert raises IndexError |
| Colors.RgbChannels | convert.py:87-97 | `parseRGB` succeeds exactly when the value has a comma, at most three pieces, and every piece converts; missing channels stay 0.0 |
| Colors.RgbOfElement | convert.py:205 | `parseRGB` handed the element itself always raises TypeError: `',' in ele` looks among the element's children and finds no match, so `float(ele)` runs on an element |
| Colors.ParseRgb | convert.py:87-97 | the loop that fills the channels computes `Rgb` |
| Transforms.Floats | convert.py:34 | the float list exists exactly when every token converts, and holds their values in order |
| Transforms.Matrix | convert.py:29-51 | a missing `value` is a KeyError; a count other than 16 tokens fails the assert; success gives exactly the keys scale, position and rotation; position is tokens 3, 7 and 11 |
| Transforms.TransformLoop | convert.py:28-51 | a loop that goes through keeps the keys it was given or adds exactly `scale`, `position` and `rotation` |
| Transforms.Transform | convert.py:26-53 | a converted transform is empty or has exactly the keys `scale`, `position` and `rotation` |
| Transforms.TransformLoopSpec | convert.py:28-53 | the loop succeeds exactly when every `matrix` child converts; with no matrix child the dict is unchanged; otherwise the result is the last matrix child's |
| Transforms.TransformLoopOk | convert.py:28-51 | the loop goes through exactly when every `matrix` child converts |
| Transforms.TransformLoopNoMatrix | convert.py:28-51 | without a `matrix` child the dict is returned unchanged |
| Transforms.TransformLoopLast | convert.py:28-51 | a loop that goes through returns what its last `matrix` child converts to |
| Transforms.TransformLastMatrixWins | convert.py:26-53 | `parseTransform` is empty without a `matrix` child, otherwise the last matrix child's decomposition with exactly the three keys, and any matrix child whose value does not split into 16 tokens makes it fail |
| Transforms.ParseTransform | convert.py:26-53 | the loop computes `Transform` |
| Integrators.IntegratorLoop | convert.py:20-23 | the loop writes at most `max_bounces` over the dict and otherwise leaves it as it is; it raises only KeyError("value") or a ValueError |
| Integrators.Integrator | convert.py:12-24 | a missing `type` raises KeyError("type"); the result is the fixed path tracer, with at most `max_bounces` added, and its `type` is always `path_tracer` |
| Integrators.IntegratorLoopFails | convert.py:20-23 | the loop fails exactly when some child's `maxDepth` value does not convert |
| Integrators.IntegratorLoopResult | convert.py:20-23 | only `max_bounces` is written; it is present exactly when some child has a `maxDepth` descendant; it holds the last such child's value |
| Integrators.IntegratorFails | convert.py:12-24 | `parseIntegrator` succeeds exactly when the element has a `type` and every `maxDepth` found converts |
| Integrators.IntegratorIsPathTracer | convert.py:12-24 | the result is always a path tracer with both light-sampling flags true, whatever the source type; it has no keys beyond these and `max_bounces`; `max_bounces` is present exactly when some child has a `maxDepth` descendant and comes from the last such child |
| Integrators.ParseIntegrator | convert.py:12-24 | the loop computes `Integrator` |
| Scenes.Scene.constructor | convert.py:243-248 | a new scene holds only the renderer with `scene_bvh` true and empty `bsdfs`, `media` and `primitives` |
| Scenes.Primitive.constructor | convert.py:175 | a new primitive is an empty dict |
| Scenes.DocJson | convert.py:265 | the serialised scene is a dict with `renderer`, `bsdfs`, `media` and `primitives`, and `integrator` and `camera` exactly when they were set, each holding the scene's value |
| Cameras.Resolution | convert.py:72-77 | a film without a `width` descendant raises AttributeError; a resolution that converts needs both a `width` and a `height` descendant and is the pair of their values converted with `int`, in that order |
| Cameras.CameraStep | convert.py:63-83 | one pass that goes through leaves the camera as it was for a child without a camera key, and otherwise writes only that key |
| Cameras.CameraLoop | convert.py:63-83 | the loop only adds `fov`, `transform` and `resolution` to the camera's keys, and removes none |
| Cameras.Camera | convert.py:56-85 | a missing `type` raises KeyError("type"); a converted camera has the fixed pinhole keys and at most `fov`, `transform` and `resolution` besides |
| Cameras.CameraLoopStep | convert.py:63-83 | a pass that goes through writes exactly the child's camera key with its converted value, or leaves the camera as it was |
| Cameras.CameraStepSpec | convert.py:64-77 | one pass for a non-sampler child fails exactly when that child does not convert, and otherwise writes only that child's camera key |
| Cameras.CameraLoopFails | convert.py:63-83 | the loop fails exactly when some direct child does not convert |
| Cameras.CameraLoopKeepsRenderer | convert.py:78-83 | the loop changes the renderer settings at most under `spp` |
| Cameras.CameraLoopIgnoresRenderer | convert.py:63-83 | the camera produced does not depend on the renderer settings |
| Cameras.CameraLoopKey | convert.py:63-77 | a camera key is present exactly when it was present before or some child writes it; an unwritten key keeps its value; a written key holds the last writer's value |
| Cameras.CameraLoopPresent | convert.py:63-77 | a camera key is present after the loop exactly when it was present before or some child writes it |
| Cameras.CameraLoopKept | convert.py:63-77 | a key that no child writes keeps its value |
| Cameras.CameraLoopLast | convert.py:63-77 | a written key holds its last writer's value |
| Cameras.CameraLoopSppPresent | convert.py:78-83 | `spp` is present exactly when it was before or some sampler has a `sampleCount` descendant; without one the renderer is unchanged |
| Cameras.CameraLoopSppLast | convert.py:78-83 | `spp` holds the value of the last sampler with a `sampleCount` |
| Cameras.CameraFails | convert.py:56-85 | `parseCamera` succeeds exactly when the sensor has a `type` and every child converts; a film without a width or a height descendant fails; the renderer changes at most under `spp` |
| Cameras.PinholeKeys | convert.py:57-77 | the fixed pinhole entries survive the loop; every other key is present exactly when some child writes it, and comes from the last writer |
| Cameras.CameraIsPinhole | convert.py:56-85 | the camera is always pinhole with a filmic tonemap and a tent filter; it has only `fov`, `transform` and `resolution` beyond those; `spp` is never a camera key; each key comes from its last writer |
| Cameras.CameraSampleCount | convert.py:78-83 | a sampler's `sampleCount` is written into the scene's renderer `spp`, the last one winning |
| Cameras.ParseCamera | convert.py:56-85 | the loop returns the camera of `Camera` and leaves the scene's renderer as `Camera` says |
| Materials.KindOf | convert.py:105-169 | a `type` selects no branch exactly when it is not `diffuse`, `roughdielectric`, `roughconductor` or `roughcoating` |
| Materials.TypeName | convert.py:106-143 | a supported kind is written as `lambert`, `rough_dielectric`, `rough_conductor` or `rough_coat` |
| Materials.KindsDistinct | convert.py:105-143 | distinct supported source types select distinct branches and write distinct target types |
| Materials.Pair | convert.py:167 | the `(id, dict)` tuple is stored as a two-element array from which the id and the dict are read back unchanged |
| Materials.SetFloat | convert.py:113-115 | without the parameter the dict is unchanged and nothing raises; a step that goes through with the parameter holds a float under its key |
| Materials.SetMaterial | convert.py:139-141 | with an `eta` parameter, or without a `material` one, the dict is unchanged; otherwise a step that goes through holds a float under `material` |
| Materials.SetSubstrate | convert.py:165-167 | without a `bsdf` parameter the dict is unchanged; otherwise a step that goes through holds an (id, dict) pair under `substrate` |
| Materials.Bsdf | convert.py:100-172 | `type` is read before `id`, and the first one missing raises KeyError; a converted material returns the `id` attribute as its id |
| Materials.RoughStep | convert.py:112-167 | a material of a kind without a loop is left unchanged |
| Materials.RoughLoop | convert.py:112-167 | a material of a kind without a loop is left unchanged |
| Materials.SetMaterialSpec | convert.py:139-141 | the conductor's `material` step writes the `material` attribute converted, and only when the child has no `eta` |
| Materials.SetSubstrateSpec | convert.py:165-167 | the coating's substrate step writes the recursive conversion of the child when it has a `bsdf` descendant |
| Materials.DielectricKey | convert.py:112-123 | a dielectric child that converts writes each key it contributes and keeps every other key |
| Materials.DielectricOk | convert.py:112-123 | a dielectric child all of whose contributions convert is processed without raising |
| Materials.ConductorKey | convert.py:126-141 | a conductor child that converts writes each key it contributes and keeps every other key |
| Materials.ConductorOk | convert.py:126-141 | a conductor child all of whose contributions convert is processed without raising |
| Materials.CoatingKey | convert.py:144-167 | a coating child that converts writes each key it contributes and keeps every other key |
| Materials.StageKey | convert.py:113-163 | one float search of a rough pass writes its own key's contribution, and leaves every other key as it was |
| Materials.StageOk | convert.py:113-163 | one float search of a rough pass raises only when its key's contribution raises |
| Materials.CoatingFloatsKey | convert.py:145-163 | the five float searches of a coating pass write each key's contribution and keep every other key |
| Materials.CoatingFloatsKeep | convert.py:145-163 | the five float searches of a coating pass leave `substrate` alone |
| Materials.CoatingFloatsOk | convert.py:145-163 | the five float searches of a coating pass go through when their contributions convert |
| Materials.SubstrateOk | convert.py:165-167 | the substrate step raises only when the substrate's contribution raises |
| Materials.CoatingOk | convert.py:144-167 | a coating child all of whose contributions convert is processed without raising |
| Materials.RoughStepSpec | convert.py:112-167 | one pass of a rough material's loop succeeds exactly when every contribution of that child converts, and then writes exactly those contributions |
| Materials.RoughStepKey | convert.py:112-167 | the same, key by key |
| Materials.RoughLoopFails | convert.py:112-167 | a rough material's loop fails exactly when some direct child does not convert |
| Materials.RoughLoopKey | convert.py:112-167 | a key is present exactly when it was before or some child contributes it; an untouched key keeps its value; a contributed key holds the last contributor's value |
| Materials.RoughLoopPresent | convert.py:112-167 | a key is present after the loop exactly when it was before or some child contributes it |
| Materials.RoughLoopKept | convert.py:112-167 | a key that no child contributes keeps its value |
| Materials.RoughLoopLast | convert.py:112-167 | a contributed key holds its last contributor's value |
| Materials.RoughKeepsNameType | convert.py:104-167 | no pass of a rough material's loop changes `name` or `type` |
| Materials.BsdfFails | convert.py:100-172 | a missing `type` or `id` is a KeyError; `parseBsdfs` succeeds exactly when both are present, a diffuse reflectance parses as RGB, and every child of a rough material converts |
| Materials.BsdfNamed | convert.py:100-172 | the returned id is the `id` attribute and the dict's `name`; a supported type maps to lambert, rough_dielectric, rough_conductor or rough_coat; an unsupported type yields a dict holding only `name` |
| Materials.DiffuseAlbedo | convert.py:105-109 | a diffuse material has `albedo` exactly when a `reflectance` descendant exists, parsed by `parseRGB` from its value |
| Materials.RoughEntries | convert.py:110-167 | each entry of a rough material other than name and type is present exactly when some direct child contributes it, and holds the last contributor's value |
| Materials.ConductorMaterial | convert.py:124-141 | a conductor has `material` exactly when some child has a `material` descendant and no `eta` descendant; the last such child's value wins |
| Materials.CoatingSubstrate | convert.py:142-167 | a coating has `substrate` exactly when some child has a `bsdf` descendant; it holds the (id, dict) pair from converting the last such child |
| Materials.ParseBsdfs | convert.py:100-172 | the method computes `Bsdf`, including the recursion for a coating's substrate |
| Materials.ParseRoughChild | convert.py:112-167 | the body of the rough materials' loops computes `RoughStep` |
| Emitters.Emitter | convert.py:198-212 | `parseEmitter` never yields a non-empty dict; it raises exactly when `type` is missing or an area light has `radiance`, because `parseRGB` is handed the element |
| Walker.Walk | convert.py:216-239 | a walk keeps having an open primitive exactly when it was given one |
| Walker.Dispatch | convert.py:217-237 | handling an `emitter` element always raises |
| Walker.Shape | convert.py:174-196 | a shape without a `type` raises KeyError("type") and leaves the scene as it was; only a rectangle can change the scene |
| Walker.ShapeLoop | convert.py:179-193 | a loop that walks no emitter (a cube's) leaves the scene as it was |
| Walker.WalkStep | convert.py:217-237 | a walk that raises nothing goes on from the scene the child's handler leaves |
| Walker.WalkGrows | convert.py:216-239 | a walk only appends to `bsdfs` and `primitives`, never changes `media`, and changes the renderer at most under `spp`, whether or not it raises |
| Walker.DispatchGrows | convert.py:217-237 | the same for one element |
| Walker.ShapeGrows | convert.py:174-196 | the same for one shape |
| Walker.ShapeLoopGrows | convert.py:179-186 | the same for a shape's loop |
| Walker.WalkKeepsOpen | convert.py:227-234 | no walk ever writes into the primitive it was given |
| Walker.WalkRejectsEmitters | convert.py:227-234 | a walk that raises nothing has no `emitter` among the children it visits |
| Walker.EmitterDispatch | convert.py:227-234 | an emitter raises KeyError("type") without a type, TypeError for an area light with radiance, and otherwise appends `{}` to `bsdfs` and then fails the assert without an open primitive, or KeyError("name") with one |
| Walker.WalkSkipsUnknown | convert.py:236-237 | elements with unhandled tags leave the scene and the open primitive unchanged and raise nothing |
| Walker.DispatchLists | convert.py:222-226 | an element that raises nothing appends its own material to `bsdfs` or its own primitive to `primitives`, and nothing else; stated for elements other than a rectangle whose `emitter` children hold handled elements |
| Walker.BsdfsStep | convert.py:222-224 | one pass of such a walk appends to `bsdfs` exactly the child's own material |
| Walker.PrimitivesStep | convert.py:225-226 | one pass of such a walk appends to `primitives` exactly the child's own primitive |
| Walker.WalkAppendsBsdfs | convert.py:222-224 | when every rectangle is quiet (its emitters hold no handled element; other shapes never walk their emitters), a successful walk appends exactly the converted materials of its `bsdf` children, in document order |
| Walker.WalkAppendsPrimitives | convert.py:225-226 | when every rectangle is quiet, a successful walk appends exactly the primitives of its `shape` children, in document order |
| Walker.DispatchSetting | convert.py:218-221 | an `integrator` or `sensor` element replaces the scene's `integrator` or `camera` with its own conversion, and no other element changes it; stated for elements other than a rectangle whose `emitter` children hold handled elements |
| Walker.WalkSettles | convert.py:217-221 | when every rectangle is quiet, after a successful walk `integrator` and `camera` come from the last such child, or are unchanged when there is none |
| Walker.ShapeLoopKey | convert.py:179-193 | `transform` and `bsdf` of a primitive are present exactly when some child writes them, and each comes from the last writer |
| Walker.ShapeLoopStep | convert.py:179-193 | a pass that raises nothing writes the child's `transform` or `bsdf` entry with its converted value and leaves every other entry of the primitive as it was |
| Walker.ShapeEntries | convert.py:174-196 | a rectangle becomes a quad and a cube a cube, each with transform and bsdf from the last writer; any other type gives an empty dict; a cube leaves the scene untouched |
| Walker.ShapeLoopKeepsDoc | convert.py:179-193 | a shape loop that walks no emitter, or only emitters holding nothing the walk handles, neither reads nor changes the scene |
| Walker.ShapeKeepsDoc | convert.py:174-196 | a quiet shape (any shape but a rectangle, or a rectangle whose `emitter` children hold nothing the walk handles) neither reads nor changes the scene |
| Walker.QuietEmittersIgnored | convert.py:185-186 | a rectangle's loop over emitters that hold nothing the walk handles ends exactly as the loop that passes emitters over |
| Walker.NestedEmitterNotDispatched | convert.py:177-186 | a rectangle whose children are area lights holding only parameters converts to a bare quad and leaves the scene untouched, although handling those emitter elements themselves would raise |
| Walker.PassOverAll | convert.py:187-193 | a cube's loop over `emitter` children only returns the primitive it was given and raises nothing |
| Walker.QuietRectangle | convert.py:174-186 | a rectangle with quiet emitters converts as its loop without emitters and leaves the scene untouched |
| Walker.ReadRecursively | convert.py:216-239 | the loop leaves the scene and the primitive as `Walk` says and returns what it raises |
| Walker.Handle | convert.py:217-237 | one pass of the loop stores into the scene and the primitive what `Dispatch` says and returns what it raises |
| Walker.ParseShapes | convert.py:174-196 | the loop leaves the scene as `Shape` says and returns its primitive and what it raises |
| Converter.MajorVersion | convert.py:261-262 | a missing `version` raises KeyError("version"), an empty one IndexError; it goes through exactly when the first character converts with `int` |
| Converter.Conversion | convert.py:250-265 | the "wrong format" outcome comes exactly when the extension is not ".xml"; a converted document had a readable version and is a dict with `renderer`, `bsdfs`, `media` and `primitives` |
| Converter.Translation | convert.py:259-265 | an accepted file name never gives the "wrong format" outcome |
| Converter.TranslationGrows | convert.py:259-265 | a converted document is the serialisation of a scene grown from the initial one |
| Converter.ConversionChecksName | convert.py:250-257 | the file is rejected exactly when its base name does not end in ".xml" after some character other than a dot |
| Converter.SceneShape | convert.py:243-248 | a scene grown from the initial one serialises with `renderer`, `bsdfs`, `media` and `primitives`, and at most `integrator` and `camera` besides; `media` is empty; the renderer has `scene_bvh` true and at most `spp` besides |
| Converter.ConvertedShape | convert.py:241-265 | a converted document has that shape, and its root's version was readable |
| Converter.Convert | convert.py:241-265 | the method computes `Conversion` |

## Left out

- The numerics of `parseTransform` (norms, in-place column normalisation, `Rotation.as_euler`): `scale` and `rotation` are opaque functions of the 16 values (`Lib.scaleOf`, `Lib.eulerOf`). They are floating point and a foreign library.
- `Lib.scaleOf` and `Lib.eulerOf` are total: the model assumes that numpy's norms and SciPy's `Rotation.from_matrix` and `as_euler` never raise (a zero column, a matrix that is not a rotation).
- Transforms.Matrix: states the key set and the position tokens, not the values of `scale` and `rotation`, which come from those opaque functions.
- How `float()` and `int()` read strings: opaque partial functions (`Lib.floatOf`, `Lib.intOf`). None stands for a ValueError.
- Non-finite floats: `float('nan')`, `float('inf')` and `float('-infinity')` succeed in Python, and `json.dumps` then writes `NaN` or `Infinity`. A `real` has no such value, so `Json` cannot hold them; a `Lib` maps these texts to some real (or to None), and the model's document differs from the program's for them.
- Python's recursion limit: `readRecursively` → `parseShapes` → `readRecursively` and `parseBsdfs` → `parseBsdfs` recurse once per level of nesting, so a deep enough document raises RecursionError. The model recurses without bound and never raises it.
- `ET.parse` and `getroot`: `Converter.Conversion` takes the parsed root. Reading the file and XML syntax errors are not modelled.
- `json.dumps` formatting: the result is the `Json` value, not its text.
- The file write and the `__main__` block: I/O.
- `print` logging of unsupported items: it has no effect on the document.
- `osp.dirname`, and Windows path separators: only `/` separates directories in `Text.BaseName`.
- `MAJOR_VER`: its value is never used. Only the errors its computation can raise are modelled (`Converter.MajorVersion`).
- The write `primitive["bsdf"] = bsdfEntry["name"]` cannot happen: an emitter entry that converts is always `{}`, so reading `name` raises first.
- Walker.DispatchLists, Walker.DispatchSetting, Walker.WalkAppendsBsdfs, Walker.WalkAppendsPrimitives, Walker.WalkSettles: stated only for quiet shapes. Every shape but a rectangle is quiet, since only a rectangle walks its `emitter` children; a rectangle is quiet when those children hold no `integrator`, `sensor`, `bsdf`, `shape` or `emitter` element. The usual area light inside a rectangle is quiet (`Walker.QuietRectangle`). A rectangle that is not quiet walks those elements into the scene, and their entries are interleaved with the walk's own.

Behaviour of the code that its names do not suggest, which the model follows:

- A `film` child without a `width` or `height` descendant raises AttributeError rather than being skipped.
- An unsupported material still yields a dict holding `name`, which is appended.
- A coating's `substrate` is the `(id, dict)` pair `parseBsdfs` returns. It is stored as a two-element array.
- A conductor's `material` is converted with `float` from the parameter's `material` attribute.
- `distribution` is converted with `float` like the other parameters.
- A shape's `emitter` child is not handled as an emitter: `parseShapes` walks that element's children. An emitter reached by a walk always raises, so no primitive is ever wired to a synthesized material.
