/** `parseEmitter`: the material entry an area light would add. */
module Emitters {
  import opened Values
  import opened Xml
  import opened Colors

  /** `parseEmitter(n)`. An `area` light with a `radiance` parameter hands
      the element itself to `parseRGB`, which raises; every other emitter
      yields an empty dict. So no emitter ever yields a named entry. */
  function Emitter(n: Node): (r: Result<Fields>)
    ensures r.Ok? ==> r.value == map[]
    ensures r.Err? <==> "type" !in n.attrs || (n.attrs["type"] == "area" && HasParam(n, "radiance"))
    ensures "type" !in n.attrs ==> r == Err(KeyError("type"))
  {
    var emitterType :- Attr(n, "type");
    if emitterType == "area" then
      match Find(n, "radiance")
      case None => Ok(map[])
      case Some(e) =>
        match RgbOfElement(e)
        case Err(x) => Err(x)
        case Ok(albedo) => Ok(map["type" := JStr("null"), "albedo" := FloatArray(albedo), "name" := JStr("Light001")])
    else Ok(map[])
  }
}
