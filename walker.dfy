/** `readRecursively` and `parseShapes`: the walk over the scene tree that
    dispatches each element to its handler and grows the scene in place.
    The two are mutually recursive: a rectangle walks the children of its
    `emitter` elements with itself as the open primitive. */
module Walker {
  import opened Values
  import opened Xml
  import opened Transforms
  import opened Integrators
  import opened Cameras
  import opened Materials
  import opened Emitters
  import opened Scenes

  /** Where a walk leaves things: the scene, the open primitive (if the
      walk was given one) and what was raised, if anything. A walk that
      raises leaves the scene as it was at that moment. */
  datatype Run = Run(doc: Doc, open: Option<Fields>, err: Option<Error>)

  /** Where `parseShapes` leaves things: the scene, the primitive built so
      far and what was raised, if anything. */
  datatype ShapeRun = ShapeRun(doc: Doc, prim: Fields, err: Option<Error>)

  /** The `for child in xml` loop of `readRecursively` from child i on. */
  function Walk(lib: Lib, n: Node, i: nat, doc: Doc, open: Option<Fields>): (r: Run)
    requires i <= |n.children|
    ensures r.open.Some? <==> open.Some?
    decreases n, 0, |n.children| - i
  {
    if i == |n.children| then Run(doc, open, None)
    else
      var s := Dispatch(lib, n.children[i], doc, open);
      if s.err.Some? then s else Walk(lib, n, i + 1, s.doc, s.open)
  }

  /** One pass of that loop: the handler chosen by the child's tag. An
      emitter's entry is appended to `bsdfs` before the open primitive is
      checked; tags without a handler are passed over. */
  function Dispatch(lib: Lib, c: Node, doc: Doc, open: Option<Fields>): (r: Run)
    ensures r.open.Some? <==> open.Some?
    ensures c.tag == "emitter" ==> r.err.Some?
    decreases c, 3, 0
  {
    if c.tag == "integrator" then
      match Integrator(lib, c)
      case Ok(f) => Run(doc.(integrator := Some(f)), open, None)
      case Err(e) => Run(doc, open, Some(e))
    else if c.tag == "sensor" then
      var cam := Camera(lib, c, doc.renderer);
      var d := doc.(renderer := cam.renderer);
      match cam.camera
      case Ok(f) => Run(d.(camera := Some(f)), open, None)
      case Err(e) => Run(d, open, Some(e))
    else if c.tag == "bsdf" then
      match Bsdf(lib, c)
      case Ok(b) => Run(doc.(bsdfs := doc.bsdfs + [JObject(b.1)]), open, None)
      case Err(e) => Run(doc, open, Some(e))
    else if c.tag == "shape" then
      var s := Shape(lib, c, doc);
      if s.err.Some? then Run(s.doc, open, s.err)
      else Run(s.doc.(primitives := s.doc.primitives + [JObject(s.prim)]), open, None)
    else if c.tag == "emitter" then
      match Emitter(c)
      case Err(e) => Run(doc, open, Some(e))
      case Ok(entry) =>
        var d := doc.(bsdfs := doc.bsdfs + [JObject(entry)]);
        match open
        case None => Run(d, open, Some(AssertionError))
        case Some(prim) =>
          match Lookup(entry, "name")
          case None => Run(d, open, Some(KeyError("name")))
          case Some(name) => Run(d, Some(prim["bsdf" := name]), None)
    else Run(doc, open, None)
  }

  /** `parseShapes(n, scene)`: a rectangle becomes a quad and may walk its
      emitters, a cube becomes a cube, any other type an empty dict. */
  function Shape(lib: Lib, n: Node, doc: Doc): (r: ShapeRun)
    ensures "type" !in n.attrs ==> r.err == Some(KeyError("type")) && r.doc == doc
    ensures "type" in n.attrs && n.attrs["type"] != "rectangle" ==> r.doc == doc
    decreases n, 2, 0
  {
    if "type" !in n.attrs then ShapeRun(doc, map[], Some(KeyError("type")))
    else if n.attrs["type"] == "rectangle" then ShapeLoop(lib, n, 0, doc, map["type" := JStr("quad")], true)
    else if n.attrs["type"] == "cube" then ShapeLoop(lib, n, 0, doc, map["type" := JStr("cube")], false)
    else ShapeRun(doc, map[], None)
  }

  /** The `for child in xml` loop of `parseShapes` from child j on; only a
      rectangle (`emitters`) hands its `emitter` children to
      `readRecursively`, which walks their children. */
  function ShapeLoop(lib: Lib, n: Node, j: nat, doc: Doc, prim: Fields, emitters: bool): (r: ShapeRun)
    requires j <= |n.children|
    ensures !emitters ==> r.doc == doc
    decreases n, 1, |n.children| - j
  {
    if j == |n.children| then ShapeRun(doc, prim, None)
    else
      var c := n.children[j];
      if c.tag == "transform" then
        match Transform(lib, c)
        case Ok(t) => ShapeLoop(lib, n, j + 1, doc, prim["transform" := JObject(t)], emitters)
        case Err(e) => ShapeRun(doc, prim, Some(e))
      else if c.tag == "ref" then
        match Attr(c, "id")
        case Ok(id) => ShapeLoop(lib, n, j + 1, doc, prim["bsdf" := JStr(id)], emitters)
        case Err(e) => ShapeRun(doc, prim, Some(e))
      else if emitters && c.tag == "emitter" then
        var w := Walk(lib, c, 0, doc, Some(prim));
        if w.err.Some? then ShapeRun(w.doc, w.open.value, w.err)
        else ShapeLoop(lib, n, j + 1, w.doc, w.open.value, emitters)
      else ShapeLoop(lib, n, j + 1, doc, prim, emitters)
  }

  /** A walk, a handler, a shape and a shape loop only ever grow the scene:
      `bsdfs` and `primitives` are extended at their ends, `media` stays
      as it is and the renderer settings change at most under `spp`; this
      holds whether or not they raise. */
  lemma {:induction false} WalkGrows(lib: Lib, n: Node, i: nat, doc: Doc, open: Option<Fields>)
    requires i <= |n.children|
    ensures Grows(doc, Walk(lib, n, i, doc, open).doc)
    decreases n, 0, |n.children| - i
  {
    if i < |n.children| {
      var s := Dispatch(lib, n.children[i], doc, open);
      DispatchGrows(lib, n.children[i], doc, open);
      if s.err.None? {
        WalkGrows(lib, n, i + 1, s.doc, s.open);
        GrowsTransitive(doc, s.doc, Walk(lib, n, i + 1, s.doc, s.open).doc);
      }
    }
  }

  lemma {:induction false} DispatchGrows(lib: Lib, c: Node, doc: Doc, open: Option<Fields>)
    ensures Grows(doc, Dispatch(lib, c, doc, open).doc)
    decreases c, 3, 0
  {
    if c.tag == "integrator" {
    } else if c.tag == "sensor" {
      CameraFails(lib, c, doc.renderer);
    } else if c.tag == "bsdf" {
    } else if c.tag == "shape" {
      ShapeGrows(lib, c, doc);
    }
  }

  lemma {:induction false} ShapeGrows(lib: Lib, n: Node, doc: Doc)
    ensures Grows(doc, Shape(lib, n, doc).doc)
    decreases n, 2, 0
  {
    if "type" in n.attrs && n.attrs["type"] in {"rectangle", "cube"} {
      ShapeLoopGrows(lib, n, 0, doc, map["type" := JStr(if n.attrs["type"] == "rectangle" then "quad" else "cube")],
        n.attrs["type"] == "rectangle");
    }
  }

  lemma {:induction false} ShapeLoopGrows(lib: Lib, n: Node, j: nat, doc: Doc, prim: Fields, emitters: bool)
    requires j <= |n.children|
    ensures Grows(doc, ShapeLoop(lib, n, j, doc, prim, emitters).doc)
    decreases n, 1, |n.children| - j
  {
    if j < |n.children| {
      var c := n.children[j];
      if c.tag == "transform" {
        if Transform(lib, c).Ok? {
          ShapeLoopGrows(lib, n, j + 1, doc, prim["transform" := JObject(Transform(lib, c).value)], emitters);
        }
      } else if c.tag == "ref" {
        if Attr(c, "id").Ok? {
          ShapeLoopGrows(lib, n, j + 1, doc, prim["bsdf" := JStr(Attr(c, "id").value)], emitters);
        }
      } else if emitters && c.tag == "emitter" {
        var w := Walk(lib, c, 0, doc, Some(prim));
        WalkGrows(lib, c, 0, doc, Some(prim));
        if w.err.None? {
          ShapeLoopGrows(lib, n, j + 1, w.doc, w.open.value, emitters);
          GrowsTransitive(doc, w.doc, ShapeLoop(lib, n, j + 1, w.doc, w.open.value, emitters).doc);
        }
      } else {
        ShapeLoopGrows(lib, n, j + 1, doc, prim, emitters);
      }
    }
  }

  /** No walk ever writes into the primitive it is given: an emitter's
      entry is an empty dict or the emitter raises, so `bsdfEntry["name"]`
      raises before `primitive["bsdf"]` is written. */
  lemma {:induction false} WalkKeepsOpen(lib: Lib, n: Node, i: nat, doc: Doc, open: Option<Fields>)
    requires i <= |n.children|
    ensures Walk(lib, n, i, doc, open).open == open
    decreases |n.children| - i
  {
    if i < |n.children| {
      var s := Dispatch(lib, n.children[i], doc, open);
      assert s.open == open;
      if s.err.None? {
        WalkKeepsOpen(lib, n, i + 1, s.doc, s.open);
      }
    }
  }

  /** A walk that raises nothing has no `emitter` among the children it
      walks: handling one always raises, after its entry is appended. With
      no open primitive the assert fails; with one, the entry has no name. */
  lemma {:induction false} WalkRejectsEmitters(lib: Lib, n: Node, i: nat, doc: Doc, open: Option<Fields>)
    requires i <= |n.children|
    requires Walk(lib, n, i, doc, open).err.None?
    ensures forall m :: i <= m < |n.children| ==> n.children[m].tag != "emitter"
    decreases |n.children| - i
  {
    if i < |n.children| {
      var s := Dispatch(lib, n.children[i], doc, open);
      WalkRejectsEmitters(lib, n, i + 1, s.doc, s.open);
    }
  }

  /** What handling one `emitter` element raises, and the scene it leaves. */
  lemma EmitterDispatch(lib: Lib, c: Node, doc: Doc, open: Option<Fields>)
    requires c.tag == "emitter"
    ensures var r := Dispatch(lib, c, doc, open);
      && r.err.Some?
      && ("type" !in c.attrs ==> r.err == Some(KeyError("type")) && r.doc == doc)
      && ("type" in c.attrs && c.attrs["type"] == "area" && HasParam(c, "radiance") ==>
            r.err == Some(TypeError) && r.doc == doc)
      && (Emitter(c).Ok? ==>
            r.doc == doc.(bsdfs := doc.bsdfs + [JObject(map[])]) &&
            r.err == Some(if open.None? then AssertionError else KeyError("name")))
  {
    if "type" in c.attrs && c.attrs["type"] == "area" && HasParam(c, "radiance") {
      assert Emitter(c) == Err(TypeError);
    }
  }

  /** The tags `readRecursively` has a handler for. */
  const HandledTags: set<string> := {"integrator", "sensor", "bsdf", "shape", "emitter"}

  /** Elements without a handler are passed over: a walk over nothing else
      raises nothing and leaves the scene and the open primitive as they
      were, whatever lies below those elements. */
  lemma {:induction false} WalkSkipsUnknown(lib: Lib, n: Node, i: nat, doc: Doc, open: Option<Fields>)
    requires i <= |n.children|
    requires forall m :: i <= m < |n.children| ==> n.children[m].tag !in HandledTags
    ensures Walk(lib, n, i, doc, open) == Run(doc, open, None)
    decreases |n.children| - i
  {
    if i < |n.children| {
      WalkSkipsUnknown(lib, n, i + 1, doc, open);
    }
  }

  /** One pass of a walk that raises nothing: the child's handler raises
      nothing and the walk goes on from the scene it leaves. */
  lemma WalkStep(lib: Lib, n: Node, i: nat, doc: Doc, open: Option<Fields>) returns (s: Run)
    requires i < |n.children|
    requires Walk(lib, n, i, doc, open).err.None?
    ensures s == Dispatch(lib, n.children[i], doc, open) && s.err.None?
    ensures Walk(lib, n, i, doc, open) == Walk(lib, n, i + 1, s.doc, s.open)
  {
    s := Dispatch(lib, n.children[i], doc, open);
  }

  /** An element all of whose children the walk passes over. */
  predicate PassedOver(e: Node)
  {
    forall r :: 0 <= r < |e.children| ==> e.children[r].tag !in HandledTags
  }

  /** A shape that is not a rectangle, or a rectangle whose `emitter`
      children hold nothing the walk handles. Only a rectangle walks its
      emitters; the usual area light holds only its radiance parameter, so
      a rectangle around it is quiet. Such a shape's conversion never
      walks back into the scene. */
  predicate QuietShape(c: Node)
  {
    "type" in c.attrs && c.attrs["type"] == "rectangle" ==>
      forall q :: 0 <= q < |c.children| && c.children[q].tag == "emitter" ==> PassedOver(c.children[q])
  }

  /** Every `shape` among the children from i on is quiet. */
  predicate QuietShapes(kids: seq<Node>, i: nat)
  {
    forall m :: i <= m < |kids| && kids[m].tag == "shape" ==> QuietShape(kids[m])
  }

  /** The material a direct child adds to `bsdfs`: one for a `bsdf`
      element that converts, none otherwise. */
  function BsdfEntry(lib: Lib, c: Node): seq<Json>
  {
    if c.tag == "bsdf" then
      match Bsdf(lib, c)
      case Ok(b) => [JObject(b.1)]
      case Err(_) => []
    else []
  }

  /** The materials of the `bsdf` elements among `kids` from position i
      on, in document order. */
  function BsdfEntries(lib: Lib, kids: seq<Node>, i: nat): seq<Json>
    decreases |kids| - i
  {
    if i >= |kids| then [] else BsdfEntry(lib, kids[i]) + BsdfEntries(lib, kids, i + 1)
  }

  /** The primitive a direct child adds to `primitives`, for a shape whose
      conversion does not depend on the scene. */
  function PrimitiveEntry(lib: Lib, c: Node): seq<Json>
  {
    if c.tag == "shape" && Shape(lib, c, InitialDoc).err.None? then [JObject(Shape(lib, c, InitialDoc).prim)] else []
  }

  /** The primitives of the `shape` elements among `kids` from position i
      on, in document order, for shapes whose conversion does not depend on
      the scene. */
  function PrimitiveEntries(lib: Lib, kids: seq<Node>, i: nat): seq<Json>
    decreases |kids| - i
  {
    if i >= |kids| then [] else PrimitiveEntry(lib, kids[i]) + PrimitiveEntries(lib, kids, i + 1)
  }

  /** Handling one element that raises nothing, other than a shape whose
      emitters hold handled elements, appends to `bsdfs` and `primitives`
      exactly its own entry. */
  lemma DispatchLists(lib: Lib, c: Node, doc: Doc, open: Option<Fields>)
    requires c.tag == "shape" ==> QuietShape(c)
    requires Dispatch(lib, c, doc, open).err.None?
    ensures Dispatch(lib, c, doc, open).doc.bsdfs == doc.bsdfs + BsdfEntry(lib, c)
    ensures Dispatch(lib, c, doc, open).doc.primitives == doc.primitives + PrimitiveEntry(lib, c)
  {
    if c.tag == "shape" {
      ShapeKeepsDoc(lib, c, doc, InitialDoc);
    } else {
      assert c.tag != "emitter";
    }
  }

  /** One pass of the walk that raises nothing, seen through `bsdfs`. */
  lemma BsdfsStep(lib: Lib, n: Node, i: nat, doc: Doc, open: Option<Fields>) returns (s: Run)
    requires i < |n.children|
    requires QuietShapes(n.children, i)
    requires Walk(lib, n, i, doc, open).err.None?
    ensures s.err.None? && Walk(lib, n, i, doc, open) == Walk(lib, n, i + 1, s.doc, s.open)
    ensures QuietShapes(n.children, i + 1)
    ensures s.doc.bsdfs == doc.bsdfs + BsdfEntry(lib, n.children[i])
  {
    s := WalkStep(lib, n, i, doc, open);
    DispatchLists(lib, n.children[i], doc, open);
  }

  /** One pass of the walk that raises nothing, seen through `primitives`. */
  lemma PrimitivesStep(lib: Lib, n: Node, i: nat, doc: Doc, open: Option<Fields>) returns (s: Run)
    requires i < |n.children|
    requires QuietShapes(n.children, i)
    requires Walk(lib, n, i, doc, open).err.None?
    ensures s.err.None? && Walk(lib, n, i, doc, open) == Walk(lib, n, i + 1, s.doc, s.open)
    ensures QuietShapes(n.children, i + 1)
    ensures s.doc.primitives == doc.primitives + PrimitiveEntry(lib, n.children[i])
  {
    s := WalkStep(lib, n, i, doc, open);
    DispatchLists(lib, n.children[i], doc, open);
  }

  /** A walk that raises nothing, over children whose shapes are quiet,
      appends to `bsdfs` exactly the materials of its `bsdf` children, in
      document order. */
  lemma {:induction false} WalkAppendsBsdfs(lib: Lib, n: Node, i: nat, doc: Doc, open: Option<Fields>)
    requires i <= |n.children|
    requires QuietShapes(n.children, i)
    requires Walk(lib, n, i, doc, open).err.None?
    ensures Walk(lib, n, i, doc, open).doc.bsdfs == doc.bsdfs + BsdfEntries(lib, n.children, i)
    decreases |n.children| - i
  {
    if i < |n.children| {
      var s := BsdfsStep(lib, n, i, doc, open);
      WalkAppendsBsdfs(lib, n, i + 1, s.doc, s.open);
      AppendRegroup(doc.bsdfs, BsdfEntry(lib, n.children[i]), BsdfEntries(lib, n.children, i + 1));
    }
  }

  /** A walk that raises nothing, over children whose shapes are quiet,
      appends to `primitives` exactly the primitives of its `shape`
      children, in document order. */
  lemma {:induction false} WalkAppendsPrimitives(lib: Lib, n: Node, i: nat, doc: Doc, open: Option<Fields>)
    requires i <= |n.children|
    requires QuietShapes(n.children, i)
    requires Walk(lib, n, i, doc, open).err.None?
    ensures Walk(lib, n, i, doc, open).doc.primitives == doc.primitives + PrimitiveEntries(lib, n.children, i)
    decreases |n.children| - i
  {
    if i < |n.children| {
      var s := PrimitivesStep(lib, n, i, doc, open);
      WalkAppendsPrimitives(lib, n, i + 1, s.doc, s.open);
      AppendRegroup(doc.primitives, PrimitiveEntry(lib, n.children[i]), PrimitiveEntries(lib, n.children, i + 1));
    }
  }

  /** Regrouping step of `WalkAppendsBsdfs` and `WalkAppendsPrimitives`. */
  lemma AppendRegroup(a: seq<Json>, head: seq<Json>, tail: seq<Json>)
    ensures (a + head) + tail == a + (head + tail)
  {
  }

  /** The scene entry an `integrator` or a `sensor` element replaces. */
  function Setting(d: Doc, tag: string): Option<Fields>
  {
    if tag == "integrator" then d.integrator else d.camera
  }

  /** What an `integrator` or a `sensor` element converts to. */
  function SettingOf(lib: Lib, c: Node): Result<Fields>
  {
    if c.tag == "integrator" then Integrator(lib, c) else Camera(lib, c, map[]).camera
  }

  /** j is the last direct child with the given tag. */
  predicate LastTagged(kids: seq<Node>, j: int, tag: string)
  {
    0 <= j < |kids| && kids[j].tag == tag &&
    forall m :: j < m < |kids| ==> kids[m].tag != tag
  }

  /** Handling one element that raises nothing replaces `integrator` (or
      `camera`) exactly when it is an `integrator` (or `sensor`) element. */
  lemma DispatchSetting(lib: Lib, c: Node, doc: Doc, open: Option<Fields>, tag: string)
    requires tag == "integrator" || tag == "sensor"
    requires c.tag == "shape" ==> QuietShape(c)
    requires Dispatch(lib, c, doc, open).err.None?
    ensures c.tag == tag ==> SettingOf(lib, c).Ok?
    ensures Setting(Dispatch(lib, c, doc, open).doc, tag) ==
      if c.tag == tag then Some(SettingOf(lib, c).value) else Setting(doc, tag)
  {
    if c.tag == tag {
      if tag == "sensor" {
        CameraLoopIgnoresRenderer(lib, c.children, 0, PinholeCamera, doc.renderer, map[]);
      }
    } else if c.tag == "shape" {
      ShapeKeepsDoc(lib, c, doc, doc);
    }
  }

  /** A walk that raises nothing, over children whose shapes are quiet,
      leaves `integrator` (or `camera`) as the conversion of its last
      `integrator` (or `sensor`) child, or as it was when there is none:
      later elements overwrite earlier ones. */
  lemma {:induction false} WalkSettles(lib: Lib, n: Node, i: nat, doc: Doc, open: Option<Fields>, tag: string)
    requires i <= |n.children|
    requires tag == "integrator" || tag == "sensor"
    requires QuietShapes(n.children, i)
    requires Walk(lib, n, i, doc, open).err.None?
    ensures (forall m :: i <= m < |n.children| ==> n.children[m].tag != tag) ==>
      Setting(Walk(lib, n, i, doc, open).doc, tag) == Setting(doc, tag)
    ensures forall j :: i <= j && LastTagged(n.children, j, tag) ==>
      SettingOf(lib, n.children[j]).Ok? &&
      Setting(Walk(lib, n, i, doc, open).doc, tag) == Some(SettingOf(lib, n.children[j]).value)
    decreases |n.children| - i
  {
    if i < |n.children| {
      var s := Dispatch(lib, n.children[i], doc, open);
      DispatchSetting(lib, n.children[i], doc, open, tag);
      WalkSettles(lib, n, i + 1, s.doc, s.open, tag);
    }
  }


  /** The entry of the primitive a direct child of a shape writes, if any. */
  function ShapeKey(c: Node): Option<string>
  {
    if c.tag == "transform" then Some("transform")
    else if c.tag == "ref" then Some("bsdf")
    else None
  }

  /** The value it writes there. */
  function ShapeValue(lib: Lib, c: Node): Result<Json>
  {
    if c.tag == "transform" then
      match Transform(lib, c)
      case Ok(t) => Ok(JObject(t))
      case Err(e) => Err(e)
    else
      match Attr(c, "id")
      case Ok(id) => Ok(JStr(id))
      case Err(e) => Err(e)
  }

  /** j is the last direct child writing entry k of the primitive. */
  predicate LastShapeWriter(kids: seq<Node>, j: int, k: string)
  {
    0 <= j < |kids| && ShapeKey(kids[j]) == Some(k) &&
    forall m :: j < m < |kids| ==> ShapeKey(kids[m]) != Some(k)
  }

  /** One pass of a shape's loop that raises nothing: it writes the
      child's entry, if any, and may grow the scene, but never touches any
      other entry of the primitive. */
  lemma ShapeLoopStep(lib: Lib, n: Node, j: nat, doc: Doc, prim: Fields, emitters: bool)
    returns (doc': Doc, prim': Fields)
    requires j < |n.children|
    requires ShapeLoop(lib, n, j, doc, prim, emitters).err.None?
    ensures ShapeLoop(lib, n, j, doc, prim, emitters) == ShapeLoop(lib, n, j + 1, doc', prim', emitters)
    ensures ShapeKey(n.children[j]).Some? ==>
      ShapeValue(lib, n.children[j]).Ok? &&
      prim' == prim[ShapeKey(n.children[j]).value := ShapeValue(lib, n.children[j]).value]
    ensures ShapeKey(n.children[j]).None? ==> prim' == prim
  {
    var c := n.children[j];
    if c.tag == "transform" {
      doc', prim' := doc, prim["transform" := JObject(Transform(lib, c).value)];
    } else if c.tag == "ref" {
      doc', prim' := doc, prim["bsdf" := JStr(Attr(c, "id").value)];
    } else if emitters && c.tag == "emitter" {
      var w := Walk(lib, c, 0, doc, Some(prim));
      WalkKeepsOpen(lib, c, 0, doc, Some(prim));
      doc', prim' := w.doc, prim;
    } else {
      doc', prim' := doc, prim;
    }
  }

  lemma {:induction false} ShapeLoopKey(lib: Lib, n: Node, j: nat, doc: Doc, prim: Fields, emitters: bool, k: string)
    requires j <= |n.children|
    requires ShapeLoop(lib, n, j, doc, prim, emitters).err.None?
    ensures var p := ShapeLoop(lib, n, j, doc, prim, emitters).prim;
      && (k in p <==> k in prim || exists m :: j <= m < |n.children| && ShapeKey(n.children[m]) == Some(k))
      && ((forall m :: j <= m < |n.children| ==> ShapeKey(n.children[m]) != Some(k)) ==> SameAt(p, prim, k))
      && (forall m :: j <= m && LastShapeWriter(n.children, m, k) ==> ShapeValue(lib, n.children[m]) == Ok(p[k]))
    decreases |n.children| - j
  {
    if j < |n.children| {
      var doc', prim' := ShapeLoopStep(lib, n, j, doc, prim, emitters);
      ShapeLoopKey(lib, n, j + 1, doc', prim', emitters, k);
    }
  }

  /** A converted rectangle is a quad and a converted cube a cube; beyond
      `type` the primitive holds `transform` and `bsdf` exactly when some
      `transform` or `ref` child is present, each from the last such
      child. Its emitters add nothing to it. Any other shape type gives an
      empty primitive, and a cube leaves the scene untouched. */
  lemma ShapeEntries(lib: Lib, n: Node, doc: Doc, k: string)
    requires Shape(lib, n, doc).err.None?
    ensures "type" in n.attrs
    ensures var p := Shape(lib, n, doc).prim;
      && (n.attrs["type"] !in {"rectangle", "cube"} ==> p == map[] && Shape(lib, n, doc).doc == doc)
      && (n.attrs["type"] == "rectangle" ==> "type" in p && p["type"] == JStr("quad"))
      && (n.attrs["type"] == "cube" ==> "type" in p && p["type"] == JStr("cube") && Shape(lib, n, doc).doc == doc)
      && (n.attrs["type"] in {"rectangle", "cube"} && k != "type" ==>
            (k in p <==> exists m :: 0 <= m < |n.children| && ShapeKey(n.children[m]) == Some(k)))
      && (n.attrs["type"] in {"rectangle", "cube"} ==>
            forall m :: LastShapeWriter(n.children, m, k) ==> ShapeValue(lib, n.children[m]) == Ok(p[k]))
  {
    var t := n.attrs["type"];
    if t in {"rectangle", "cube"} {
      var prim := map["type" := JStr(if t == "rectangle" then "quad" else "cube")];
      ShapeLoopKey(lib, n, 0, doc, prim, t == "rectangle", k);
      ShapeLoopKey(lib, n, 0, doc, prim, t == "rectangle", "type");
      if t == "cube" {
        ShapeLoopKeepsDoc(lib, n, 0, doc, doc, prim, false);
      }
    }
  }

  /** A shape loop whose emitters, if it walks them, hold nothing the walk
      handles neither reads nor changes the scene: run on any other scene,
      it ends the same way. */
  lemma {:induction false} ShapeLoopKeepsDoc(lib: Lib, n: Node, j: nat, doc: Doc, other: Doc, prim: Fields, emitters: bool)
    requires j <= |n.children|
    requires emitters ==> forall m :: j <= m < |n.children| && n.children[m].tag == "emitter" ==> PassedOver(n.children[m])
    ensures ShapeLoop(lib, n, j, doc, prim, emitters) == ShapeLoop(lib, n, j, other, prim, emitters).(doc := doc)
    decreases |n.children| - j
  {
    if j < |n.children| {
      var c := n.children[j];
      if c.tag == "transform" {
        if Transform(lib, c).Ok? {
          ShapeLoopKeepsDoc(lib, n, j + 1, doc, other, prim["transform" := JObject(Transform(lib, c).value)], emitters);
        }
      } else if c.tag == "ref" {
        if Attr(c, "id").Ok? {
          ShapeLoopKeepsDoc(lib, n, j + 1, doc, other, prim["bsdf" := JStr(Attr(c, "id").value)], emitters);
        }
      } else if emitters && c.tag == "emitter" {
        WalkSkipsUnknown(lib, c, 0, doc, Some(prim));
        WalkSkipsUnknown(lib, c, 0, other, Some(prim));
        ShapeLoopKeepsDoc(lib, n, j + 1, doc, other, prim, emitters);
      } else {
        ShapeLoopKeepsDoc(lib, n, j + 1, doc, other, prim, emitters);
      }
    }
  }

  /** A quiet shape neither reads nor changes the scene. */
  lemma ShapeKeepsDoc(lib: Lib, c: Node, doc: Doc, other: Doc)
    requires QuietShape(c)
    ensures Shape(lib, c, doc) == Shape(lib, c, other).(doc := doc)
  {
    if "type" in c.attrs && c.attrs["type"] in {"rectangle", "cube"} {
      ShapeLoopKeepsDoc(lib, c, 0, doc, other, map["type" := JStr(if c.attrs["type"] == "rectangle" then "quad" else "cube")],
        c.attrs["type"] == "rectangle");
    }
  }

  /** A rectangle's loop over emitters that hold nothing the walk handles
      ends exactly as the loop that passes emitters over, as a cube's does. */
  lemma {:induction false} QuietEmittersIgnored(lib: Lib, n: Node, j: nat, doc: Doc, prim: Fields)
    requires j <= |n.children|
    requires forall m :: j <= m < |n.children| && n.children[m].tag == "emitter" ==> PassedOver(n.children[m])
    ensures ShapeLoop(lib, n, j, doc, prim, true) == ShapeLoop(lib, n, j, doc, prim, false)
    decreases |n.children| - j
  {
    if j < |n.children| {
      var c := n.children[j];
      if c.tag == "transform" {
        if Transform(lib, c).Ok? {
          QuietEmittersIgnored(lib, n, j + 1, doc, prim["transform" := JObject(Transform(lib, c).value)]);
        }
      } else if c.tag == "ref" {
        if Attr(c, "id").Ok? {
          QuietEmittersIgnored(lib, n, j + 1, doc, prim["bsdf" := JStr(Attr(c, "id").value)]);
        }
      } else {
        if c.tag == "emitter" {
          WalkSkipsUnknown(lib, c, 0, doc, Some(prim));
        }
        QuietEmittersIgnored(lib, n, j + 1, doc, prim);
      }
    }
  }

  /** An area light written inside a rectangle is never handled as an
      emitter: the rectangle walks the emitter's children, which the walk
      passes over, so it converts to a bare quad and leaves the scene
      untouched, although handling the emitter element itself would raise. */
  lemma NestedEmitterNotDispatched(lib: Lib, n: Node, doc: Doc)
    requires "type" in n.attrs && n.attrs["type"] == "rectangle"
    requires forall m :: 0 <= m < |n.children| ==> n.children[m].tag == "emitter" && PassedOver(n.children[m])
    ensures Shape(lib, n, doc) == ShapeRun(doc, map["type" := JStr("quad")], None)
    ensures forall m :: 0 <= m < |n.children| ==> Dispatch(lib, n.children[m], doc, Some(map["type" := JStr("quad")])).err.Some?
  {
    var prim := map["type" := JStr("quad")];
    QuietEmittersIgnored(lib, n, 0, doc, prim);
    PassOverAll(lib, n, 0, doc, prim);
  }

  /** A cube-style loop over children none of which is a `transform` or a
      `ref` changes nothing. */
  lemma {:induction false} PassOverAll(lib: Lib, n: Node, j: nat, doc: Doc, prim: Fields)
    requires j <= |n.children|
    requires forall m :: j <= m < |n.children| ==> n.children[m].tag == "emitter"
    ensures ShapeLoop(lib, n, j, doc, prim, false) == ShapeRun(doc, prim, None)
    decreases |n.children| - j
  {
    if j < |n.children| {
      PassOverAll(lib, n, j + 1, doc, prim);
    }
  }

  /** A rectangle with quiet emitters converts exactly as it would without
      them, and leaves the scene untouched. */
  lemma QuietRectangle(lib: Lib, n: Node, doc: Doc)
    requires "type" in n.attrs && n.attrs["type"] == "rectangle" && QuietShape(n)
    ensures Shape(lib, n, doc) == ShapeLoop(lib, n, 0, doc, map["type" := JStr("quad")], false)
    ensures Shape(lib, n, doc).doc == doc
  {
    var prim := map["type" := JStr("quad")];
    QuietEmittersIgnored(lib, n, 0, doc, prim);
    ShapeLoopKeepsDoc(lib, n, 0, doc, doc, prim, false);
  }

  /** `readRecursively(xml, scene, primitive)` as the source runs it: each
      handler's result is stored into the scene object, and an emitter's
      name would be stored into the primitive object (null where the source
      passes None). On return the scene and the primitive are what `Walk`
      says, whether the walk raised or not. */
  method ReadRecursively(lib: Lib, xml: Node, scene: Scene, primitive: Primitive?) returns (err: Option<Error>)
    modifies scene, primitive
    ensures var w := Walk(lib, xml, 0, old(scene.State()), if primitive == null then None else Some(old(primitive.fields)));
      && scene.State() == w.doc
      && err == w.err
      && (primitive != null ==> primitive.fields == w.open.value)
    decreases xml, 0
  {
    ghost var open0 := if primitive == null then None else Some(primitive.fields);
    ghost var goal := Walk(lib, xml, 0, scene.State(), open0);
    var i := 0;
    while i < |xml.children|
      invariant 0 <= i <= |xml.children|
      invariant Walk(lib, xml, i, scene.State(), if primitive == null then None else Some(primitive.fields)) == goal
    {
      err := Handle(lib, xml.children[i], scene, primitive);
      if err.Some? {
        return;
      }
      i := i + 1;
    }
    err := None;
  }

  /** One turn of `readRecursively`'s loop: the child's handler runs and its
      result is stored into the scene object (or the primitive object), as
      `Dispatch` says. */
  method Handle(lib: Lib, child: Node, scene: Scene, primitive: Primitive?) returns (err: Option<Error>)
    modifies scene, primitive
    ensures var s := Dispatch(lib, child, old(scene.State()), if primitive == null then None else Some(old(primitive.fields)));
      && scene.State() == s.doc
      && err == s.err
      && (primitive != null ==> primitive.fields == s.open.value)
    decreases child, 3
  {
    if child.tag == "integrator" {
      var integrator := ParseIntegrator(lib, child);
      if integrator.Err? {
        return Some(integrator.error);
      }
      scene.integrator := Some(integrator.value);
    } else if child.tag == "sensor" {
      var camera := ParseCamera(lib, child, scene);
      if camera.Err? {
        return Some(camera.error);
      }
      scene.camera := Some(camera.value);
    } else if child.tag == "bsdf" {
      var bsdf := ParseBsdfs(lib, child);
      if bsdf.Err? {
        return Some(bsdf.error);
      }
      scene.bsdfs := scene.bsdfs + [JObject(bsdf.value.1)];
    } else if child.tag == "shape" {
      var prim, e := ParseShapes(lib, child, scene);
      if e.Some? {
        return e;
      }
      scene.primitives := scene.primitives + [JObject(prim.fields)];
    } else if child.tag == "emitter" {
      var entry := Emitter(child);
      if entry.Err? {
        return Some(entry.error);
      }
      scene.bsdfs := scene.bsdfs + [JObject(entry.value)];
      if primitive == null {
        return Some(AssertionError);
      }
      // `primitive["bsdf"] = bsdfEntry["name"]`: an entry that converts is
      // always the empty dict, so the read raises and nothing is written.
      if Lookup(entry.value, "name").Some? {
        assert false;
      }
      return Some(KeyError("name"));
    }
    err := None;
  }

  /** `parseShapes(xml, scene)` as the source runs it: the primitive is an
      object the walk over a rectangle's emitters could write into. */
  method ParseShapes(lib: Lib, xml: Node, scene: Scene) returns (prim: Primitive, err: Option<Error>)
    modifies scene
    ensures fresh(prim)
    ensures var s := Shape(lib, xml, old(scene.State()));
      && scene.State() == s.doc
      && err == s.err
      && (err.None? ==> prim.fields == s.prim)
    decreases xml, 1
  {
    prim := new Primitive();
    if "type" !in xml.attrs {
      return prim, Some(KeyError("type"));
    }
    var shapeType := xml.attrs["type"];
    if shapeType != "rectangle" && shapeType != "cube" {
      return prim, None;
    }
    var rectangle := shapeType == "rectangle";
    prim.fields := prim.fields["type" := JStr(if rectangle then "quad" else "cube")];
    ghost var goal := Shape(lib, xml, old(scene.State()));
    var j := 0;
    while j < |xml.children|
      invariant 0 <= j <= |xml.children|
      invariant ShapeLoop(lib, xml, j, scene.State(), prim.fields, rectangle) == goal
    {
      var child := xml.children[j];
      if child.tag == "transform" {
        var t := ParseTransform(lib, child);
        if t.Err? {
          return prim, Some(t.error);
        }
        prim.fields := prim.fields["transform" := JObject(t.value)];
      } else if child.tag == "ref" {
        if "id" !in child.attrs {
          return prim, Some(KeyError("id"));
        }
        prim.fields := prim.fields["bsdf" := JStr(child.attrs["id"])];
      } else if rectangle && child.tag == "emitter" {
        var e := ReadRecursively(lib, child, scene, prim);
        if e.Some? {
          return prim, e;
        }
      }
      j := j + 1;
    }
    err := None;
  }
}
