/** `parseCamera`: every sensor becomes the one pinhole camera the target
    renderer supports; its sampler writes the scene's renderer settings. */
module Cameras {
  import opened Values
  import opened Xml
  import opened Transforms
  import opened Scenes

  /** The entries written before the loop, whatever the source settings. */
  const PinholeCamera: Fields := map[
    "type" := JStr("pinhole"),
    "tonemap" := JStr("filmic"),
    "reconstruction_filter" := JStr("tent")]

  /** The keys the loop may add to the camera. */
  const CameraKeys: set<string> := {"fov", "transform", "resolution"}

  /** `[int(w.attrib["value"]), int(h.attrib["value"])]` for a `film` child,
      where w and h are the `width` and `height` parameters found below it;
      a missing one is None, whose attribute read raises. */
  function Resolution(lib: Lib, film: Node): (r: Result<Json>)
    ensures !HasParam(film, "width") ==> r == Err(AttributeError)
    ensures r.Ok? ==> HasParam(film, "width") && HasParam(film, "height")
    ensures r.Ok? ==> r.value.JArray? && |r.value.items| == 2 && r.value.items[0].JInt? && r.value.items[1].JInt?
    ensures r.Ok? ==> var e := Find(film, "width").value;
      "value" in e.attrs && Some(r.value.items[0].i) == lib.intOf(e.attrs["value"])
    ensures r.Ok? ==> var e := Find(film, "height").value;
      "value" in e.attrs && Some(r.value.items[1].i) == lib.intOf(e.attrs["value"])
  {
    var w, h := Find(film, "width"), Find(film, "height");
    if w.None? then Err(AttributeError)
    else
      var width :- IntAttr(lib, w.value, "value");
      if h.None? then Err(AttributeError)
      else
        var height :- IntAttr(lib, h.value, "value");
        Ok(JArray([JInt(width), JInt(height)]))
  }

  /** One pass of the loop for a child other than a `sampler`: a `float`
      named `fov` is copied, other floats are dropped, a `transform` and a
      `film` child write `transform` and `resolution`. */
  function CameraStep(lib: Lib, c: Node, camera: Fields): (r: Result<Fields>)
    ensures r.Ok? && CameraKey(c).None? ==> r.value == camera
    ensures r.Ok? && CameraKey(c).Some? ==> var k := CameraKey(c).value;
      k in r.value && r.value == camera[k := r.value[k]]
  {
    if c.tag == "float" then
      var name :- Attr(c, "name");
      if name == "fov" then
        var fov :- FloatAttr(lib, c, "value");
        Ok(camera["fov" := JFloat(fov)])
      else Ok(camera)
    else if c.tag == "transform" then
      var t :- Transform(lib, c);
      Ok(camera["transform" := JObject(t)])
    else if c.tag == "film" then
      var res :- Resolution(lib, c);
      Ok(camera["resolution" := res])
    else Ok(camera)
  }

  /** The camera, or what was raised, and the renderer settings as left. */
  datatype CameraRun = CameraRun(camera: Result<Fields>, renderer: Fields)

  /** The `for child in xml` loop of `parseCamera` from child i on. */
  function CameraLoop(lib: Lib, kids: seq<Node>, i: nat, camera: Fields, renderer: Fields): (r: CameraRun)
    requires i <= |kids|
    ensures r.camera.Ok? ==> camera.Keys <= r.camera.value.Keys <= camera.Keys + CameraKeys
    decreases |kids| - i
  {
    if i == |kids| then CameraRun(Ok(camera), renderer)
    else if kids[i].tag == "sampler" then
      match IntParam(lib, kids[i], "sampleCount")
      case None => CameraLoop(lib, kids, i + 1, camera, renderer)
      case Some(Err(e)) => CameraRun(Err(e), renderer)
      case Some(Ok(spp)) => CameraLoop(lib, kids, i + 1, camera, renderer["spp" := JInt(spp)])
    else
      match CameraStep(lib, kids[i], camera)
      case Err(e) => CameraRun(Err(e), renderer)
      case Ok(next) => CameraLoop(lib, kids, i + 1, next, renderer)
  }

  /** `parseCamera(n, scene)` on a scene whose renderer settings are `renderer`. */
  function Camera(lib: Lib, n: Node, renderer: Fields): (r: CameraRun)
    ensures "type" !in n.attrs ==> r.camera == Err(KeyError("type"))
    ensures r.camera.Ok? ==> PinholeCamera.Keys <= r.camera.value.Keys <= PinholeCamera.Keys + CameraKeys
  {
    if "type" !in n.attrs then CameraRun(Err(KeyError("type")), renderer)
    else CameraLoop(lib, n.children, 0, PinholeCamera, renderer)
  }

  /** The camera key a direct child writes, if any. */
  function CameraKey(c: Node): Option<string>
  {
    if c.tag == "float" && NamedAs(c, "fov") then Some("fov")
    else if c.tag == "transform" then Some("transform")
    else if c.tag == "film" then Some("resolution")
    else None
  }

  /** The value a direct child writes under its camera key. */
  function CameraValue(lib: Lib, c: Node): Result<Json>
  {
    if c.tag == "float" then
      match FloatAttr(lib, c, "value")
      case Ok(f) => Ok(JFloat(f))
      case Err(e) => Err(e)
    else if c.tag == "transform" then
      match Transform(lib, c)
      case Ok(t) => Ok(JObject(t))
      case Err(e) => Err(e)
    else Resolution(lib, c)
  }

  /** A direct child the loop passes without raising. */
  predicate CameraChildConverts(lib: Lib, c: Node)
  {
    if c.tag == "float" then "name" in c.attrs && (NamedAs(c, "fov") ==> CameraValue(lib, c).Ok?)
    else if c.tag == "transform" || c.tag == "film" then CameraValue(lib, c).Ok?
    else if c.tag == "sampler" then IntParam(lib, c, "sampleCount").Some? ==> IntParam(lib, c, "sampleCount").value.Ok?
    else true
  }

  /** j is the last direct child writing camera key k. */
  predicate LastWriter(kids: seq<Node>, j: int, k: string)
  {
    0 <= j < |kids| && CameraKey(kids[j]) == Some(k) &&
    forall m :: j < m < |kids| ==> CameraKey(kids[m]) != Some(k)
  }

  /** j is the last `sampler` child with a `sampleCount` parameter. */
  predicate LastSampler(kids: seq<Node>, j: int)
  {
    0 <= j < |kids| && kids[j].tag == "sampler" && HasParam(kids[j], "sampleCount") &&
    forall m :: j < m < |kids| ==> !(kids[m].tag == "sampler" && HasParam(kids[m], "sampleCount"))
  }

  lemma CameraStepSpec(lib: Lib, c: Node, camera: Fields)
    requires c.tag != "sampler"
    ensures CameraStep(lib, c, camera).Ok? <==> CameraChildConverts(lib, c)
    ensures CameraStep(lib, c, camera).Ok? ==>
      CameraStep(lib, c, camera) ==
        Ok(if CameraKey(c).Some? then camera[CameraKey(c).value := CameraValue(lib, c).value] else camera)
  {
  }

  lemma {:induction false} CameraLoopFails(lib: Lib, kids: seq<Node>, i: nat, camera: Fields, renderer: Fields)
    requires i <= |kids|
    ensures CameraLoop(lib, kids, i, camera, renderer).camera.Ok? <==>
      forall j :: i <= j < |kids| ==> CameraChildConverts(lib, kids[j])
    decreases |kids| - i
  {
    if i < |kids| {
      var c := kids[i];
      if c.tag == "sampler" {
        match IntParam(lib, c, "sampleCount")
        case None => CameraLoopFails(lib, kids, i + 1, camera, renderer);
        case Some(Err(_)) =>
        case Some(Ok(spp)) => CameraLoopFails(lib, kids, i + 1, camera, renderer["spp" := JInt(spp)]);
      } else {
        CameraStepSpec(lib, c, camera);
        match CameraStep(lib, c, camera)
        case Err(_) =>
        case Ok(next) => CameraLoopFails(lib, kids, i + 1, next, renderer);
      }
    }
  }

  /** Whatever happens, the loop changes the renderer settings at most under `spp`. */
  lemma {:induction false} CameraLoopKeepsRenderer(lib: Lib, kids: seq<Node>, i: nat, camera: Fields, renderer: Fields)
    requires i <= |kids|
    ensures SameBesideSpp(renderer, CameraLoop(lib, kids, i, camera, renderer).renderer)
    decreases |kids| - i
  {
    if i < |kids| {
      var c := kids[i];
      if c.tag == "sampler" {
        match IntParam(lib, c, "sampleCount")
        case None => CameraLoopKeepsRenderer(lib, kids, i + 1, camera, renderer);
        case Some(Err(_)) =>
        case Some(Ok(spp)) => CameraLoopKeepsRenderer(lib, kids, i + 1, camera, renderer["spp" := JInt(spp)]);
      } else {
        match CameraStep(lib, c, camera)
        case Err(_) =>
        case Ok(next) => CameraLoopKeepsRenderer(lib, kids, i + 1, next, renderer);
      }
    }
  }

  /** One pass of the camera loop that raises nothing: it writes the
      child's camera key, if any, and no other camera entry. */
  lemma CameraLoopStep(lib: Lib, kids: seq<Node>, i: nat, camera: Fields, renderer: Fields)
    returns (camera': Fields, renderer': Fields)
    requires i < |kids|
    requires CameraLoop(lib, kids, i, camera, renderer).camera.Ok?
    ensures CameraLoop(lib, kids, i, camera, renderer) == CameraLoop(lib, kids, i + 1, camera', renderer')
    ensures CameraKey(kids[i]).Some? ==>
      CameraValue(lib, kids[i]).Ok? && camera' == camera[CameraKey(kids[i]).value := CameraValue(lib, kids[i]).value]
    ensures CameraKey(kids[i]).None? ==> camera' == camera
  {
    var c := kids[i];
    if c.tag == "sampler" {
      match IntParam(lib, c, "sampleCount")
      case None => camera', renderer' := camera, renderer;
      case Some(Ok(spp)) => camera', renderer' := camera, renderer["spp" := JInt(spp)];
    } else {
      CameraStepSpec(lib, c, camera);
      camera', renderer' := CameraStep(lib, c, camera).value, renderer;
    }
  }

  lemma CameraLoopKey(lib: Lib, kids: seq<Node>, i: nat, camera: Fields, renderer: Fields, k: string, r: Fields)
    requires i <= |kids|
    requires CameraLoop(lib, kids, i, camera, renderer).camera == Ok(r)
    ensures k in r <==> k in camera || exists j :: i <= j < |kids| && CameraKey(kids[j]) == Some(k)
    ensures (forall j :: i <= j < |kids| ==> CameraKey(kids[j]) != Some(k)) && k in camera ==> r[k] == camera[k]
    ensures forall j :: i <= j && LastWriter(kids, j, k) ==> CameraValue(lib, kids[j]) == Ok(r[k])
  {
    CameraLoopPresent(lib, kids, i, camera, renderer, k, r);
    CameraLoopKept(lib, kids, i, camera, renderer, k, r);
    CameraLoopLast(lib, kids, i, camera, renderer, k, r);
  }

  /** A key is in the converted camera exactly when it was there before or
      some child from i on writes it. */
  lemma {:induction false} CameraLoopPresent(lib: Lib, kids: seq<Node>, i: nat, camera: Fields, renderer: Fields, k: string, r: Fields)
    requires i <= |kids|
    requires CameraLoop(lib, kids, i, camera, renderer).camera == Ok(r)
    ensures k in r <==> k in camera || exists j :: i <= j < |kids| && CameraKey(kids[j]) == Some(k)
    decreases |kids| - i
  {
    if i < |kids| {
      var camera', renderer' := CameraLoopStep(lib, kids, i, camera, renderer);
      CameraLoopPresent(lib, kids, i + 1, camera', renderer', k, r);
    }
  }

  /** A key no child from i on writes keeps its value. */
  lemma {:induction false} CameraLoopKept(lib: Lib, kids: seq<Node>, i: nat, camera: Fields, renderer: Fields, k: string, r: Fields)
    requires i <= |kids|
    requires CameraLoop(lib, kids, i, camera, renderer).camera == Ok(r)
    ensures (forall j :: i <= j < |kids| ==> CameraKey(kids[j]) != Some(k)) && k in camera ==> k in r && r[k] == camera[k]
    decreases |kids| - i
  {
    if i < |kids| {
      var camera', renderer' := CameraLoopStep(lib, kids, i, camera, renderer);
      CameraLoopKept(lib, kids, i + 1, camera', renderer', k, r);
    }
  }

  /** A written key holds what its last writer from i on converts to. */
  lemma {:induction false} CameraLoopLast(lib: Lib, kids: seq<Node>, i: nat, camera: Fields, renderer: Fields, k: string, r: Fields)
    requires i <= |kids|
    requires CameraLoop(lib, kids, i, camera, renderer).camera == Ok(r)
    ensures forall j :: i <= j && LastWriter(kids, j, k) ==> k in r && CameraValue(lib, kids[j]) == Ok(r[k])
    decreases |kids| - i
  {
    if i < |kids| {
      var camera', renderer' := CameraLoopStep(lib, kids, i, camera, renderer);
      CameraLoopLast(lib, kids, i + 1, camera', renderer', k, r);
      if LastWriter(kids, i, k) {
        CameraLoopKept(lib, kids, i + 1, camera', renderer', k, r);
      }
    }
  }

  /** The camera a sensor converts to, or what it raises, does not depend
      on the renderer settings its sampler writes into. */
  lemma {:induction false} CameraLoopIgnoresRenderer(lib: Lib, kids: seq<Node>, i: nat, camera: Fields, r1: Fields, r2: Fields)
    requires i <= |kids|
    ensures CameraLoop(lib, kids, i, camera, r1).camera == CameraLoop(lib, kids, i, camera, r2).camera
    decreases |kids| - i
  {
    if i < |kids| {
      if kids[i].tag == "sampler" {
        match IntParam(lib, kids[i], "sampleCount")
        case None => CameraLoopIgnoresRenderer(lib, kids, i + 1, camera, r1, r2);
        case Some(Err(_)) =>
        case Some(Ok(spp)) => CameraLoopIgnoresRenderer(lib, kids, i + 1, camera, r1["spp" := JInt(spp)], r2["spp" := JInt(spp)]);
      } else if CameraStep(lib, kids[i], camera).Ok? {
        CameraLoopIgnoresRenderer(lib, kids, i + 1, CameraStep(lib, kids[i], camera).value, r1, r2);
      }
    }
  }

  lemma {:induction false} CameraLoopSppPresent(lib: Lib, kids: seq<Node>, i: nat, camera: Fields, renderer: Fields)
    requires i <= |kids|
    requires CameraLoop(lib, kids, i, camera, renderer).camera.Ok?
    ensures var after := CameraLoop(lib, kids, i, camera, renderer).renderer;
      && ("spp" in after <==>
            ("spp" in renderer ||
             exists j :: i <= j < |kids| && kids[j].tag == "sampler" && HasParam(kids[j], "sampleCount")))
      && ((forall j :: i <= j < |kids| ==> !(kids[j].tag == "sampler" && HasParam(kids[j], "sampleCount"))) ==>
            after == renderer)
    decreases |kids| - i
  {
    if i < |kids| {
      var c := kids[i];
      if c.tag == "sampler" {
        match IntParam(lib, c, "sampleCount")
        case None => CameraLoopSppPresent(lib, kids, i + 1, camera, renderer);
        case Some(Ok(spp)) => CameraLoopSppPresent(lib, kids, i + 1, camera, renderer["spp" := JInt(spp)]);
      } else {
        CameraLoopSppPresent(lib, kids, i + 1, CameraStep(lib, c, camera).value, renderer);
      }
    }
  }

  lemma {:induction false} CameraLoopSppLast(lib: Lib, kids: seq<Node>, i: nat, camera: Fields, renderer: Fields)
    requires i <= |kids|
    requires CameraLoop(lib, kids, i, camera, renderer).camera.Ok?
    ensures var after := CameraLoop(lib, kids, i, camera, renderer).renderer;
      forall j :: i <= j && LastSampler(kids, j) ==>
        IntParam(lib, kids[j], "sampleCount").Some? && IntParam(lib, kids[j], "sampleCount").value.Ok? &&
        "spp" in after && after["spp"] == JInt(IntParam(lib, kids[j], "sampleCount").value.value)
    decreases |kids| - i
  {
    if i < |kids| {
      var c := kids[i];
      if c.tag == "sampler" {
        match IntParam(lib, c, "sampleCount")
        case None => CameraLoopSppLast(lib, kids, i + 1, camera, renderer);
        case Some(Ok(spp)) =>
          CameraLoopSppLast(lib, kids, i + 1, camera, renderer["spp" := JInt(spp)]);
          if LastSampler(kids, i) {
            CameraLoopSppPresent(lib, kids, i + 1, camera, renderer["spp" := JInt(spp)]);
          }
      } else {
        CameraLoopSppLast(lib, kids, i + 1, CameraStep(lib, c, camera).value, renderer);
      }
    }
  }

  /** `parseCamera` fails exactly when the `type` attribute is missing or
      some direct child raises: a `float` without a name, a `fov`, a
      `transform` or a `film` that does not convert (a `film` without a
      `width` or `height` parameter among them), or a `sampleCount` that is
      not an integer. Whatever happens, the renderer settings change at most
      under `spp`. */
  lemma CameraFails(lib: Lib, n: Node, renderer: Fields)
    ensures Camera(lib, n, renderer).camera.Ok? <==>
      "type" in n.attrs && forall j :: 0 <= j < |n.children| ==> CameraChildConverts(lib, n.children[j])
    ensures forall j ::
      (0 <= j < |n.children| && n.children[j].tag == "film" &&
       !(HasParam(n.children[j], "width") && HasParam(n.children[j], "height"))) ==>
      Camera(lib, n, renderer).camera.Err?
    ensures SameBesideSpp(renderer, Camera(lib, n, renderer).renderer)
  {
    if "type" in n.attrs {
      CameraLoopFails(lib, n.children, 0, PinholeCamera, renderer);
      CameraLoopKeepsRenderer(lib, n.children, 0, PinholeCamera, renderer);
    }
  }

  /** A converted camera is always the pinhole camera with the filmic
      tonemap and the tent filter; beyond those it holds `fov`, `transform`
      and `resolution` exactly when some direct child writes them (only a
      `float` named `fov` writes `fov`), each from the last such child. The
      sample count never lands in the camera. */
  lemma CameraIsPinhole(lib: Lib, n: Node, renderer: Fields, r: Fields)
    requires Camera(lib, n, renderer).camera == Ok(r)
    ensures "type" in r && r["type"] == JStr("pinhole")
    ensures "tonemap" in r && r["tonemap"] == JStr("filmic")
    ensures "reconstruction_filter" in r && r["reconstruction_filter"] == JStr("tent")
    ensures r.Keys <= PinholeCamera.Keys + {"fov", "transform", "resolution"}
    ensures "spp" !in r
    ensures forall k :: k !in PinholeCamera ==>
      (k in r <==> exists j :: 0 <= j < |n.children| && CameraKey(n.children[j]) == Some(k))
    ensures forall k, j :: LastWriter(n.children, j, k) ==> CameraValue(lib, n.children[j]) == Ok(r[k])
  {
    assert CameraLoop(lib, n.children, 0, PinholeCamera, renderer).camera == Ok(r);
    PinholeKeys(lib, n.children, renderer, r);
    assert PinholeCamera.Keys == {"type", "tonemap", "reconstruction_filter"};
    forall k | k in r && k !in PinholeCamera ensures k in {"fov", "transform", "resolution"} {
      var j :| 0 <= j < |n.children| && CameraKey(n.children[j]) == Some(k);
    }
  }

  lemma PinholeKeys(lib: Lib, kids: seq<Node>, renderer: Fields, r: Fields)
    requires CameraLoop(lib, kids, 0, PinholeCamera, renderer).camera == Ok(r)
    ensures forall k :: k in PinholeCamera ==> k in r && r[k] == PinholeCamera[k]
    ensures forall k :: k !in PinholeCamera ==>
      (k in r <==> exists j :: 0 <= j < |kids| && CameraKey(kids[j]) == Some(k))
    ensures forall k, j :: LastWriter(kids, j, k) ==> CameraValue(lib, kids[j]) == Ok(r[k])
  {
    forall k | k in PinholeCamera ensures k in r && r[k] == PinholeCamera[k] {
      CameraLoopKey(lib, kids, 0, PinholeCamera, renderer, k, r);
    }
    forall k | k !in PinholeCamera ensures k in r <==> exists j :: 0 <= j < |kids| && CameraKey(kids[j]) == Some(k) {
      CameraLoopKey(lib, kids, 0, PinholeCamera, renderer, k, r);
    }
    forall k, j | LastWriter(kids, j, k) ensures CameraValue(lib, kids[j]) == Ok(r[k]) {
      CameraLoopKey(lib, kids, 0, PinholeCamera, renderer, k, r);
    }
  }

  /** A converted camera leaves `spp` in the renderer settings exactly when
      it was there or some `sampler` child has a `sampleCount`, and then it
      is the count of the last such child. */
  lemma CameraSampleCount(lib: Lib, n: Node, renderer: Fields)
    requires Camera(lib, n, renderer).camera.Ok?
    ensures var after := Camera(lib, n, renderer).renderer;
      && ("spp" in after <==>
            ("spp" in renderer ||
             exists j :: 0 <= j < |n.children| && n.children[j].tag == "sampler" && HasParam(n.children[j], "sampleCount")))
      && (forall j :: LastSampler(n.children, j) ==>
            IntParam(lib, n.children[j], "sampleCount").Some? && IntParam(lib, n.children[j], "sampleCount").value.Ok? &&
            after["spp"] == JInt(IntParam(lib, n.children[j], "sampleCount").value.value))
  {
    CameraLoopSppPresent(lib, n.children, 0, PinholeCamera, renderer);
    CameraLoopSppLast(lib, n.children, 0, PinholeCamera, renderer);
  }

  /** `parseCamera` as the source runs it: the camera dict is returned and
      the sample count is written into the scene's renderer settings. */
  method ParseCamera(lib: Lib, xml: Node, scene: Scene) returns (r: Result<Fields>)
    modifies scene`renderer
    ensures r == Camera(lib, xml, old(scene.renderer)).camera
    ensures scene.renderer == Camera(lib, xml, old(scene.renderer)).renderer
  {
    if "type" !in xml.attrs {
      return Err(KeyError("type"));
    }
    var camera: Fields := map[];
    camera := camera["type" := JStr("pinhole")];
    camera := camera["tonemap" := JStr("filmic")];
    camera := camera["reconstruction_filter" := JStr("tent")];
    assert camera == PinholeCamera;
    var i := 0;
    while i < |xml.children|
      invariant 0 <= i <= |xml.children|
      invariant CameraLoop(lib, xml.children, i, camera, scene.renderer) == Camera(lib, xml, old(scene.renderer))
    {
      var child := xml.children[i];
      if child.tag == "float" {
        if "name" !in child.attrs {
          return Err(KeyError("name"));
        }
        if child.attrs["name"] == "fov" {
          var fov := FloatAttr(lib, child, "value");
          if fov.Err? {
            return Err(fov.error);
          }
          camera := camera["fov" := JFloat(fov.value)];
        }
      } else if child.tag == "transform" {
        var t := ParseTransform(lib, child);
        if t.Err? {
          return Err(t.error);
        }
        camera := camera["transform" := JObject(t.value)];
      } else if child.tag == "film" {
        var res := Resolution(lib, child);
        if res.Err? {
          return Err(res.error);
        }
        camera := camera["resolution" := res.value];
      } else if child.tag == "sampler" {
        var ele := Find(child, "sampleCount");
        if ele.Some? {
          var spp := IntAttr(lib, ele.value, "value");
          if spp.Err? {
            return Err(spp.error);
          }
          scene.renderer := scene.renderer["spp" := JInt(spp.value)];
        }
      }
      i := i + 1;
    }
    r := Ok(camera);
  }
}
