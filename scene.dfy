/** The scene document the conversion builds in place, and the primitive
    under construction that shape handling shares with the tree walk. */
module Scenes {
  import opened Values

  /** The value of the scene dict: `integrator` and `camera` are absent
      until an `integrator` or `sensor` element is met. */
  datatype Doc = Doc(
    renderer: Fields,
    integrator: Option<Fields>,
    camera: Option<Fields>,
    bsdfs: seq<Json>,
    media: seq<Json>,
    primitives: seq<Json>)

  /** The scene `convert` starts from. */
  const InitialDoc: Doc := Doc(map["scene_bvh" := JBool(true)], None, None, [], [], [])

  /** The JSON object a scene serialises to. */
  function DocJson(d: Doc): (r: Json)
    ensures r.JObject?
    ensures {"renderer", "bsdfs", "media", "primitives"} <= r.fields.Keys <=
      {"renderer", "bsdfs", "media", "primitives", "integrator", "camera"}
    ensures ("integrator" in r.fields <==> d.integrator.Some?) && ("camera" in r.fields <==> d.camera.Some?)
    ensures r.fields["renderer"] == JObject(d.renderer) && r.fields["media"] == JArray(d.media)
    ensures r.fields["bsdfs"] == JArray(d.bsdfs) && r.fields["primitives"] == JArray(d.primitives)
    ensures d.integrator.Some? ==> r.fields["integrator"] == JObject(d.integrator.value)
    ensures d.camera.Some? ==> r.fields["camera"] == JObject(d.camera.value)
  {
    var fixed := map[
      "renderer" := JObject(d.renderer),
      "bsdfs" := JArray(d.bsdfs),
      "media" := JArray(d.media),
      "primitives" := JArray(d.primitives)];
    var withIntegrator := if d.integrator.Some? then fixed["integrator" := JObject(d.integrator.value)] else fixed;
    JObject(if d.camera.Some? then withIntegrator["camera" := JObject(d.camera.value)] else withIntegrator)
  }

  /** What a walk may do to a scene: `bsdfs` and `primitives` only grow at
      their ends, `media` never changes, and the renderer settings change
      at most under `spp`. */
  ghost predicate Grows(a: Doc, b: Doc)
  {
    && a.bsdfs <= b.bsdfs
    && a.primitives <= b.primitives
    && b.media == a.media
    && SameBesideSpp(a.renderer, b.renderer)
  }

  /** The two renderer dicts agree on every key other than `spp`. */
  ghost predicate SameBesideSpp(a: Fields, b: Fields)
  {
    && (forall k :: k != "spp" ==> (k in a <==> k in b))
    && (forall k :: k != "spp" && k in a ==> k in b && b[k] == a[k])
  }

  lemma GrowsTransitive(a: Doc, b: Doc, c: Doc)
    requires Grows(a, b) && Grows(b, c)
    ensures Grows(a, c)
  {
  }

  /** The scene dict: its entries are fields that the handlers reassign. */
  class Scene {
    var renderer: Fields
    var integrator: Option<Fields>
    var camera: Option<Fields>
    var bsdfs: seq<Json>
    var media: seq<Json>
    var primitives: seq<Json>

    /** The scene's current value. */
    function State(): Doc
      reads this
    {
      Doc(renderer, integrator, camera, bsdfs, media, primitives)
    }

    /** The scene `convert` sets up before walking the tree. */
    constructor ()
      ensures State() == InitialDoc
    {
      renderer := map["scene_bvh" := JBool(true)];
      integrator := None;
      camera := None;
      bsdfs := [];
      media := [];
      primitives := [];
    }
  }

  /** The dict of a primitive under construction. `parseShapes` hands it to
      the tree walk, which writes its `bsdf` entry in place. */
  class Primitive {
    var fields: Fields

    constructor ()
      ensures fields == map[]
    {
      fields := map[];
    }
  }
}
