/** `parseIntegrator`: every source integrator becomes the one path tracer
    the target renderer supports. */
module Integrators {
  import opened Values
  import opened Xml

  /** The entries written before the loop, whatever the source type. */
  const PathTracer: Fields := map[
    "type" := JStr("path_tracer"),
    "enable_light_sampling" := JBool(true),
    "enable_volume_light_sampling" := JBool(true)]

  /** The `for child in xml` loop of `parseIntegrator` from child i on. */
  function IntegratorLoop(lib: Lib, kids: seq<Node>, i: nat, acc: Fields): (r: Result<Fields>)
    requires i <= |kids|
    ensures r.Ok? ==> r.value == acc || ("max_bounces" in r.value && r.value == acc["max_bounces" := r.value["max_bounces"]])
    ensures r.Err? ==> r.error == KeyError("value") || r.error.ValueError?
    decreases |kids| - i
  {
    if i == |kids| then Ok(acc)
    else
      match IntParam(lib, kids[i], "maxDepth")
      case None => IntegratorLoop(lib, kids, i + 1, acc)
      case Some(Err(e)) => Err(e)
      case Some(Ok(depth)) => IntegratorLoop(lib, kids, i + 1, acc["max_bounces" := JInt(depth)])
  }

  /** `parseIntegrator(n)`: the `type` attribute is read (and may raise)
      although its value is not used. */
  function Integrator(lib: Lib, n: Node): (r: Result<Fields>)
    ensures "type" !in n.attrs ==> r == Err(KeyError("type"))
    ensures r.Ok? ==> r.value == PathTracer || ("max_bounces" in r.value && r.value == PathTracer["max_bounces" := r.value["max_bounces"]])
    ensures r.Ok? ==> "type" in r.value && r.value["type"] == JStr("path_tracer")
  {
    if "type" !in n.attrs then Err(KeyError("type"))
    else IntegratorLoop(lib, n.children, 0, PathTracer)
  }

  lemma {:induction false} IntegratorLoopFails(lib: Lib, kids: seq<Node>, i: nat, acc: Fields)
    requires i <= |kids|
    ensures IntegratorLoop(lib, kids, i, acc).Ok? <==>
      forall j :: i <= j < |kids| && IntParam(lib, kids[j], "maxDepth").Some? ==> IntParam(lib, kids[j], "maxDepth").value.Ok?
    decreases |kids| - i
  {
    if i < |kids| {
      match IntParam(lib, kids[i], "maxDepth")
      case None =>
        IntegratorLoopFails(lib, kids, i + 1, acc);
      case Some(Ok(depth)) =>
        IntegratorLoopFails(lib, kids, i + 1, acc["max_bounces" := JInt(depth)]);
      case Some(Err(_)) =>
    }
  }

  lemma {:induction false} IntegratorLoopResult(lib: Lib, kids: seq<Node>, i: nat, acc: Fields, r: Fields)
    requires i <= |kids|
    requires IntegratorLoop(lib, kids, i, acc) == Ok(r)
    ensures forall k :: k != "max_bounces" ==> (k in r <==> k in acc)
    ensures forall k :: k != "max_bounces" && k in acc ==> r[k] == acc[k]
    ensures "max_bounces" in r <==> "max_bounces" in acc || exists j :: i <= j < |kids| && HasParam(kids[j], "maxDepth")
    ensures forall j :: i <= j && LastWithParam(kids, j, "maxDepth") ==>
      IntParam(lib, kids[j], "maxDepth").Some? && IntParam(lib, kids[j], "maxDepth").value.Ok? &&
      r["max_bounces"] == JInt(IntParam(lib, kids[j], "maxDepth").value.value)
    ensures (forall j :: i <= j < |kids| ==> !HasParam(kids[j], "maxDepth")) && "max_bounces" in acc ==>
      r["max_bounces"] == acc["max_bounces"]
    decreases |kids| - i
  {
    if i < |kids| {
      match IntParam(lib, kids[i], "maxDepth")
      case None =>
        IntegratorLoopResult(lib, kids, i + 1, acc, r);
      case Some(Ok(depth)) =>
        IntegratorLoopResult(lib, kids, i + 1, acc["max_bounces" := JInt(depth)], r);
    }
  }

  /** `parseIntegrator` fails exactly when the `type` attribute is missing or
      some `maxDepth` value is not an integer. */
  lemma IntegratorFails(lib: Lib, n: Node)
    ensures Integrator(lib, n).Ok? <==>
      "type" in n.attrs &&
      forall j :: 0 <= j < |n.children| && IntParam(lib, n.children[j], "maxDepth").Some? ==> IntParam(lib, n.children[j], "maxDepth").value.Ok?
  {
    IntegratorLoopFails(lib, n.children, 0, PathTracer);
  }

  /** The result of `parseIntegrator` always names the path tracer with both
      sampling flags on; `max_bounces` is present exactly when some direct
      child has a strict descendant named `maxDepth`, and then comes from the
      last such child. */
  lemma IntegratorIsPathTracer(lib: Lib, n: Node, r: Fields)
    requires Integrator(lib, n) == Ok(r)
    ensures "type" in r && r["type"] == JStr("path_tracer")
    ensures "enable_light_sampling" in r && r["enable_light_sampling"] == JBool(true)
    ensures "enable_volume_light_sampling" in r && r["enable_volume_light_sampling"] == JBool(true)
    ensures r.Keys <= PathTracer.Keys + {"max_bounces"}
    ensures "max_bounces" in r <==> exists j :: 0 <= j < |n.children| && HasParam(n.children[j], "maxDepth")
    ensures forall j :: LastWithParam(n.children, j, "maxDepth") ==>
      IntParam(lib, n.children[j], "maxDepth").Some? && IntParam(lib, n.children[j], "maxDepth").value.Ok? &&
      r["max_bounces"] == JInt(IntParam(lib, n.children[j], "maxDepth").value.value)
  {
    IntegratorLoopResult(lib, n.children, 0, PathTracer, r);
    assert PathTracer.Keys == {"type", "enable_light_sampling", "enable_volume_light_sampling"};
    assert "max_bounces" !in PathTracer;
  }

  /** `parseIntegrator` as the source runs it. */
  method ParseIntegrator(lib: Lib, xml: Node) returns (r: Result<Fields>)
    ensures r == Integrator(lib, xml)
  {
    if "type" !in xml.attrs {
      return Err(KeyError("type"));
    }
    var integrator: Fields := map[];
    integrator := integrator["type" := JStr("path_tracer")];
    integrator := integrator["enable_light_sampling" := JBool(true)];
    integrator := integrator["enable_volume_light_sampling" := JBool(true)];
    assert integrator == PathTracer;
    var i := 0;
    while i < |xml.children|
      invariant 0 <= i <= |xml.children|
      invariant IntegratorLoop(lib, xml.children, i, integrator) == Integrator(lib, xml)
    {
      var ele := Find(xml.children[i], "maxDepth");
      if ele.Some? {
        var depth := IntAttr(lib, ele.value, "value");
        if depth.Err? {
          return Err(depth.error);
        }
        integrator := integrator["max_bounces" := JInt(depth.value)];
      }
      i := i + 1;
    }
    r := Ok(integrator);
  }
}
