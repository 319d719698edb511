/** `parseBsdfs`: a material element becomes a named material of the target
    renderer; a rough coating nests the material of its substrate. */
module Materials {
  import opened Values
  import opened Xml
  import opened Colors

  /** The material types the converter knows; every other type is kept
      only by name. */
  datatype Kind = Diffuse | RoughDielectric | RoughConductor | RoughCoating | Unsupported

  /** The material types the converter translates. */
  const SupportedTypes: set<string> := {"diffuse", "roughdielectric", "roughconductor", "roughcoating"}

  /** The branch of `parseBsdfs` a material's `type` selects. */
  function KindOf(t: string): (r: Kind)
    ensures r == Unsupported <==> t !in SupportedTypes
  {
    if t == "diffuse" then Diffuse
    else if t == "roughdielectric" then RoughDielectric
    else if t == "roughconductor" then RoughConductor
    else if t == "roughcoating" then RoughCoating
    else Unsupported
  }

  /** The target renderer's name for a supported kind. */
  function TypeName(k: Kind): (r: string)
    requires k != Unsupported
    ensures r in {"lambert", "rough_dielectric", "rough_conductor", "rough_coat"}
  {
    match k
    case Diffuse => "lambert"
    case RoughDielectric => "rough_dielectric"
    case RoughConductor => "rough_conductor"
    case RoughCoating => "rough_coat"
  }

  /** Distinct supported source types select distinct branches, and each
      branch writes its own target type: the translation of type names is
      one to one. */
  lemma KindsDistinct(a: string, b: string)
    requires KindOf(a) != Unsupported && KindOf(b) != Unsupported
    ensures KindOf(a) == KindOf(b) <==> a == b
    ensures TypeName(KindOf(a)) == TypeName(KindOf(b)) <==> a == b
  {
  }

  predicate IsRough(k: Kind)
  {
    k == RoughDielectric || k == RoughConductor || k == RoughCoating
  }

  /** For a rough kind, the source parameter a numeric entry is read from:
      `ior` from `intIOR` (dielectric) or `eta`, `roughness` from `alpha`,
      `sigma_a` from `sigmaA`, and `distribution` and `thickness` from
      parameters of their own name (`thickness` for the coating only). */
  function ParamFor(kind: Kind, key: string): Option<string>
  {
    if !IsRough(kind) then None
    else if key == "ior" then Some(if kind == RoughDielectric then "intIOR" else "eta")
    else if key == "distribution" then Some("distribution")
    else if key == "roughness" then Some("alpha")
    else if kind == RoughCoating && key == "thickness" then Some("thickness")
    else if kind == RoughCoating && key == "sigma_a" then Some("sigmaA")
    else None
  }

  /** `bsdf[key] = float(ele.attrib["value"])` when the search below the
      child for parameter p finds an element. */
  function SetFloat(lib: Lib, c: Node, p: string, key: string, acc: Fields): (r: Result<Fields>)
    ensures !HasParam(c, p) ==> r == Ok(acc)
    ensures r.Err? ==> HasParam(c, p)
    ensures r.Ok? && HasParam(c, p) ==> key in r.value && r.value[key].JFloat?
  {
    match Find(c, p)
    case None => Ok(acc)
    case Some(e) =>
      var f :- FloatAttr(lib, e, "value");
      Ok(acc[key := JFloat(f)])
  }

  /** A conductor's `material` entry: converted from the `material`
      attribute (not `value`) of the parameter named `material`, and only
      when the same child has no `eta` parameter. */
  function SetMaterial(lib: Lib, c: Node, acc: Fields): (r: Result<Fields>)
    ensures HasParam(c, "eta") || !HasParam(c, "material") ==> r == Ok(acc)
    ensures r.Ok? && HasParam(c, "material") && !HasParam(c, "eta") ==> "material" in r.value && r.value["material"].JFloat?
  {
    match Find(c, "material")
    case None => Ok(acc)
    case Some(e) =>
      if HasParam(c, "eta") then Ok(acc)
      else
        var f :- FloatAttr(lib, e, "material");
        Ok(acc["material" := JFloat(f)])
  }

  /** The tuple `(id, dict)` that `parseBsdfs` returns, as a JSON value: it
      is what a coating stores under `substrate`. */
  function Pair(b: (string, Fields)): (r: Json)
    ensures r.JArray? && |r.items| == 2
    ensures Unpair(r) == Some(b)
  {
    JArray([JStr(b.0), JObject(b.1)])
  }

  /** Reads an (id, dict) pair back from its JSON form, if it is one. */
  function Unpair(j: Json): Option<(string, Fields)>
  {
    if j.JArray? && |j.items| == 2 && j.items[0].JStr? && j.items[1].JObject? then
      Some((j.items[0].s, j.items[1].fields))
    else None
  }

  /** `parseBsdfs(n)`: `type` is read before `id`; the result is the id and
      a dict whose `name` is that id. */
  function Bsdf(lib: Lib, n: Node): (r: Result<(string, Fields)>)
    ensures "type" !in n.attrs ==> r == Err(KeyError("type"))
    ensures "type" in n.attrs && "id" !in n.attrs ==> r == Err(KeyError("id"))
    ensures r.Ok? ==> "id" in n.attrs && r.value.0 == n.attrs["id"]
    decreases n, |n.children| + 1
  {
    var t :- Attr(n, "type");
    var id :- Attr(n, "id");
    var named: Fields := map["name" := JStr(id)];
    var kind := KindOf(t);
    if kind == Unsupported then Ok((id, named))
    else
      var typed := named["type" := JStr(TypeName(kind))];
      if kind == Diffuse then
        match Find(n, "reflectance")
        case None => Ok((id, typed))
        case Some(e) =>
          var text :- Attr(e, "value");
          var rgb :- Rgb(lib, text);
          Ok((id, typed["albedo" := FloatArray(rgb)]))
      else
        var d :- RoughLoop(lib, kind, n, 0, typed);
        Ok((id, d))
  }

  /** The `for child in xml` loop of a rough kind from child i on. */
  function RoughLoop(lib: Lib, kind: Kind, n: Node, i: nat, acc: Fields): (r: Result<Fields>)
    requires i <= |n.children|
    ensures !IsRough(kind) ==> r == Ok(acc)
    decreases n, |n.children| - i
  {
    if i == |n.children| then Ok(acc)
    else
      var next :- RoughStep(lib, kind, n.children[i], acc);
      RoughLoop(lib, kind, n, i + 1, next)
  }

  /** One pass of that loop: the parameter searches in the order the
      source makes them, each able to raise. */
  function RoughStep(lib: Lib, kind: Kind, c: Node, acc: Fields): (r: Result<Fields>)
    ensures !IsRough(kind) ==> r == Ok(acc)
    decreases c, |c.children| + 3
  {
    match kind
    case RoughDielectric =>
      var a1 :- SetFloat(lib, c, "intIOR", "ior", acc);
      var a2 :- SetFloat(lib, c, "distribution", "distribution", a1);
      SetFloat(lib, c, "alpha", "roughness", a2)
    case RoughConductor =>
      var a1 :- SetFloat(lib, c, "eta", "ior", acc);
      var a2 :- SetFloat(lib, c, "distribution", "distribution", a1);
      var a3 :- SetFloat(lib, c, "alpha", "roughness", a2);
      SetMaterial(lib, c, a3)
    case RoughCoating =>
      var a1 :- SetFloat(lib, c, "eta", "ior", acc);
      var a2 :- SetFloat(lib, c, "thickness", "thickness", a1);
      var a3 :- SetFloat(lib, c, "distribution", "distribution", a2);
      var a4 :- SetFloat(lib, c, "alpha", "roughness", a3);
      var a5 :- SetFloat(lib, c, "sigmaA", "sigma_a", a4);
      SetSubstrate(lib, c, a5)
    case _ => Ok(acc)
  }

  /** A coating's `substrate` entry: when the child has a parameter named
      `bsdf`, the child itself is converted as a material. */
  function SetSubstrate(lib: Lib, c: Node, acc: Fields): (r: Result<Fields>)
    ensures !HasParam(c, "bsdf") ==> r == Ok(acc)
    ensures r.Ok? && HasParam(c, "bsdf") ==> "substrate" in r.value && r.value["substrate"].JArray?
    decreases c, |c.children| + 2
  {
    if HasParam(c, "bsdf") then
      var sub :- Bsdf(lib, c);
      Ok(acc["substrate" := Pair(sub)])
    else Ok(acc)
  }

  /** What one direct child of a rough material contributes under `key`:
      nothing, or the value it writes (or what writing it raises). */
  function Contribution(lib: Lib, kind: Kind, c: Node, key: string): Option<Result<Json>>
  {
    if ParamFor(kind, key).Some? then
      match Find(c, ParamFor(kind, key).value)
      case None => None
      case Some(e) =>
        Some(match FloatAttr(lib, e, "value") case Ok(f) => Ok(JFloat(f)) case Err(x) => Err(x))
    else if kind == RoughConductor && key == "material" then
      if HasParam(c, "material") && !HasParam(c, "eta") then
        Some(match FloatAttr(lib, Find(c, "material").value, "material") case Ok(f) => Ok(JFloat(f)) case Err(x) => Err(x))
      else None
    else if kind == RoughCoating && key == "substrate" then
      if HasParam(c, "bsdf") then
        Some(match Bsdf(lib, c) case Ok(b) => Ok(Pair(b)) case Err(x) => Err(x))
      else None
    else None
  }

  /** A contribution that does not raise. */
  predicate Converts(o: Option<Result<Json>>)
  {
    o.Some? ==> o.value.Ok?
  }

  /** j is the last direct child that contributes under `key`. */
  predicate LastContributor(lib: Lib, kind: Kind, kids: seq<Node>, j: int, key: string)
  {
    0 <= j < |kids| && Contribution(lib, kind, kids[j], key).Some? &&
    forall m :: j < m < |kids| ==> Contribution(lib, kind, kids[m], key).None?
  }

  lemma SetFloatSpec(lib: Lib, c: Node, p: string, key: string, acc: Fields)
    ensures SetFloat(lib, c, p, key, acc).Ok? <==>
      Find(c, p).None? || FloatAttr(lib, Find(c, p).value, "value").Ok?
    ensures SetFloat(lib, c, p, key, acc).Ok? ==>
      SetFloat(lib, c, p, key, acc).value ==
        if Find(c, p).None? then acc else acc[key := JFloat(FloatAttr(lib, Find(c, p).value, "value").value)]
  {
  }

  lemma SetMaterialSpec(lib: Lib, c: Node, acc: Fields)
    ensures SetMaterial(lib, c, acc).Ok? <==> Converts(Contribution(lib, RoughConductor, c, "material"))
    ensures SetMaterial(lib, c, acc).Ok? ==>
      SetMaterial(lib, c, acc).value ==
        match Contribution(lib, RoughConductor, c, "material")
        case None => acc
        case Some(v) => acc["material" := v.value]
  {
  }

  lemma SetSubstrateSpec(lib: Lib, c: Node, acc: Fields)
    ensures SetSubstrate(lib, c, acc).Ok? <==> Converts(Contribution(lib, RoughCoating, c, "substrate"))
    ensures SetSubstrate(lib, c, acc).Ok? ==>
      SetSubstrate(lib, c, acc).value ==
        match Contribution(lib, RoughCoating, c, "substrate")
        case None => acc
        case Some(v) => acc["substrate" := v.value]
  {
  }

  /** `s`, the dict after one pass of a rough kind's loop over `acc`,
      holds the child's contribution under `key`, or what `acc` held. */
  predicate KeyWritten(lib: Lib, kind: Kind, c: Node, acc: Fields, s: Fields, key: string)
  {
    && (Contribution(lib, kind, c, key).Some? ==>
          key in s && Contribution(lib, kind, c, key).value == Ok(s[key]))
    && (Contribution(lib, kind, c, key).None? ==>
          (key in s <==> key in acc) && (key in acc ==> s[key] == acc[key]))
  }

  lemma DielectricKey(lib: Lib, c: Node, acc: Fields, key: string)
    ensures var r := RoughStep(lib, RoughDielectric, c, acc);
      r.Ok? ==> Converts(Contribution(lib, RoughDielectric, c, key)) && KeyWritten(lib, RoughDielectric, c, acc, r.value, key)
  {
    var kind := RoughDielectric;
    var r := RoughStep(lib, kind, c, acc);
    if r.Ok? {
      var a1 := SetFloat(lib, c, "intIOR", "ior", acc).value;
      var a2 := SetFloat(lib, c, "distribution", "distribution", a1).value;
      StageKey(lib, kind, c, "intIOR", "ior", acc, key);
      StageKey(lib, kind, c, "distribution", "distribution", a1, key);
      StageKey(lib, kind, c, "alpha", "roughness", a2, key);
      if key !in {"ior", "distribution", "roughness"} {
        assert Contribution(lib, kind, c, key).None?;
      }
    }
  }

  lemma DielectricOk(lib: Lib, c: Node, acc: Fields)
    requires forall key :: Converts(Contribution(lib, RoughDielectric, c, key))
    ensures RoughStep(lib, RoughDielectric, c, acc).Ok?
  {
    var kind := RoughDielectric;
    assert Converts(Contribution(lib, kind, c, "ior"));
    assert Converts(Contribution(lib, kind, c, "distribution"));
    assert Converts(Contribution(lib, kind, c, "roughness"));
    StageOk(lib, kind, c, "intIOR", "ior", acc);
    var a1 := SetFloat(lib, c, "intIOR", "ior", acc).value;
    StageOk(lib, kind, c, "distribution", "distribution", a1);
    var a2 := SetFloat(lib, c, "distribution", "distribution", a1).value;
    StageOk(lib, kind, c, "alpha", "roughness", a2);
  }

  lemma ConductorKey(lib: Lib, c: Node, acc: Fields, key: string)
    ensures var r := RoughStep(lib, RoughConductor, c, acc);
      r.Ok? ==> Converts(Contribution(lib, RoughConductor, c, key)) && KeyWritten(lib, RoughConductor, c, acc, r.value, key)
  {
    var kind := RoughConductor;
    var r := RoughStep(lib, kind, c, acc);
    if r.Ok? {
      var a1 := SetFloat(lib, c, "eta", "ior", acc).value;
      var a2 := SetFloat(lib, c, "distribution", "distribution", a1).value;
      var a3 := SetFloat(lib, c, "alpha", "roughness", a2).value;
      assert r == SetMaterial(lib, c, a3);
      SetMaterialSpec(lib, c, a3);
      StageKey(lib, kind, c, "eta", "ior", acc, key);
      StageKey(lib, kind, c, "distribution", "distribution", a1, key);
      StageKey(lib, kind, c, "alpha", "roughness", a2, key);
      if key !in {"ior", "distribution", "roughness", "material"} {
        assert Contribution(lib, kind, c, key).None?;
      }
    }
  }

  lemma ConductorOk(lib: Lib, c: Node, acc: Fields)
    requires forall key :: Converts(Contribution(lib, RoughConductor, c, key))
    ensures RoughStep(lib, RoughConductor, c, acc).Ok?
  {
    var kind := RoughConductor;
    assert Converts(Contribution(lib, kind, c, "ior"));
    assert Converts(Contribution(lib, kind, c, "distribution"));
    assert Converts(Contribution(lib, kind, c, "roughness"));
    assert Converts(Contribution(lib, kind, c, "material"));
    StageOk(lib, kind, c, "eta", "ior", acc);
    var a1 := SetFloat(lib, c, "eta", "ior", acc).value;
    StageOk(lib, kind, c, "distribution", "distribution", a1);
    var a2 := SetFloat(lib, c, "distribution", "distribution", a1).value;
    StageOk(lib, kind, c, "alpha", "roughness", a2);
    var a3 := SetFloat(lib, c, "alpha", "roughness", a2).value;
    SetMaterialSpec(lib, c, a3);
  }

  /** a and b agree at `key`. */
  predicate SameAt(a: Fields, b: Fields, key: string)
  {
    (key in a <==> key in b) && (key in a ==> a[key] == b[key])
  }

  lemma CoatingKey(lib: Lib, c: Node, acc: Fields, key: string)
    ensures var r := RoughStep(lib, RoughCoating, c, acc);
      r.Ok? ==> Converts(Contribution(lib, RoughCoating, c, key)) && KeyWritten(lib, RoughCoating, c, acc, r.value, key)
  {
    var r := RoughStep(lib, RoughCoating, c, acc);
    if r.Ok? {
      var a1 := SetFloat(lib, c, "eta", "ior", acc).value;
      var a2 := SetFloat(lib, c, "thickness", "thickness", a1).value;
      var a3 := SetFloat(lib, c, "distribution", "distribution", a2).value;
      var a4 := SetFloat(lib, c, "alpha", "roughness", a3).value;
      var a5 := SetFloat(lib, c, "sigmaA", "sigma_a", a4).value;
      assert r == SetSubstrate(lib, c, a5);
      SetSubstrateSpec(lib, c, a5);
      if key == "substrate" {
        CoatingFloatsKeep(lib, c, acc, key);
      } else {
        assert SameAt(r.value, a5, key);
        CoatingFloatsKey(lib, c, acc, key);
      }
    }
  }

  /** One float search of a rough pass, seen from one key: it writes that
      key's contribution if it is the key searched for, and nothing else. */
  lemma StageKey(lib: Lib, kind: Kind, c: Node, p: string, k: string, acc: Fields, key: string)
    requires ParamFor(kind, k) == Some(p)
    requires SetFloat(lib, c, p, k, acc).Ok?
    ensures key == k ==>
      Converts(Contribution(lib, kind, c, key)) && KeyWritten(lib, kind, c, acc, SetFloat(lib, c, p, k, acc).value, key)
    ensures key != k ==> SameAt(SetFloat(lib, c, p, k, acc).value, acc, key)
  {
  }

  /** One float search of a rough pass raises only when its key's
      contribution raises. */
  lemma StageOk(lib: Lib, kind: Kind, c: Node, p: string, k: string, acc: Fields)
    requires ParamFor(kind, k) == Some(p)
    requires Converts(Contribution(lib, kind, c, k))
    ensures SetFloat(lib, c, p, k, acc).Ok?
  {
  }

  /** What the five float searches of a coating pass do at one key. */
  lemma CoatingFloatsKey(lib: Lib, c: Node, acc: Fields, key: string)
    requires key != "substrate"
    requires RoughStep(lib, RoughCoating, c, acc).Ok?
    ensures var a5 :=
      SetFloat(lib, c, "sigmaA", "sigma_a",
        SetFloat(lib, c, "alpha", "roughness",
          SetFloat(lib, c, "distribution", "distribution",
            SetFloat(lib, c, "thickness", "thickness",
              SetFloat(lib, c, "eta", "ior", acc).value).value).value).value).value;
      Converts(Contribution(lib, RoughCoating, c, key)) && KeyWritten(lib, RoughCoating, c, acc, a5, key)
  {
    var kind := RoughCoating;
    var a1 := SetFloat(lib, c, "eta", "ior", acc).value;
    var a2 := SetFloat(lib, c, "thickness", "thickness", a1).value;
    var a3 := SetFloat(lib, c, "distribution", "distribution", a2).value;
    var a4 := SetFloat(lib, c, "alpha", "roughness", a3).value;
    var a5 := SetFloat(lib, c, "sigmaA", "sigma_a", a4).value;
    StageKey(lib, kind, c, "eta", "ior", acc, key);
    StageKey(lib, kind, c, "thickness", "thickness", a1, key);
    StageKey(lib, kind, c, "distribution", "distribution", a2, key);
    StageKey(lib, kind, c, "alpha", "roughness", a3, key);
    StageKey(lib, kind, c, "sigmaA", "sigma_a", a4, key);
    if key !in {"ior", "thickness", "distribution", "roughness", "sigma_a"} {
      assert Contribution(lib, kind, c, key).None?;
    }
  }

  /** The five float searches of a coating pass leave `substrate` alone. */
  lemma CoatingFloatsKeep(lib: Lib, c: Node, acc: Fields, key: string)
    requires key == "substrate"
    requires RoughStep(lib, RoughCoating, c, acc).Ok?
    ensures SameAt(
      SetFloat(lib, c, "sigmaA", "sigma_a",
        SetFloat(lib, c, "alpha", "roughness",
          SetFloat(lib, c, "distribution", "distribution",
            SetFloat(lib, c, "thickness", "thickness",
              SetFloat(lib, c, "eta", "ior", acc).value).value).value).value).value, acc, key)
  {
    var a1 := SetFloat(lib, c, "eta", "ior", acc).value;
    var a2 := SetFloat(lib, c, "thickness", "thickness", a1).value;
    var a3 := SetFloat(lib, c, "distribution", "distribution", a2).value;
    var a4 := SetFloat(lib, c, "alpha", "roughness", a3).value;
    StageKey(lib, RoughCoating, c, "eta", "ior", acc, key);
    StageKey(lib, RoughCoating, c, "thickness", "thickness", a1, key);
    StageKey(lib, RoughCoating, c, "distribution", "distribution", a2, key);
    StageKey(lib, RoughCoating, c, "alpha", "roughness", a3, key);
    StageKey(lib, RoughCoating, c, "sigmaA", "sigma_a", a4, key);
  }

  lemma CoatingOk(lib: Lib, c: Node, acc: Fields)
    requires forall key :: Converts(Contribution(lib, RoughCoating, c, key))
    ensures RoughStep(lib, RoughCoating, c, acc).Ok?
  {
    var kind := RoughCoating;
    assert Converts(Contribution(lib, kind, c, "ior"));
    assert Converts(Contribution(lib, kind, c, "thickness"));
    assert Converts(Contribution(lib, kind, c, "distribution"));
    assert Converts(Contribution(lib, kind, c, "roughness"));
    assert Converts(Contribution(lib, kind, c, "sigma_a"));
    assert Converts(Contribution(lib, kind, c, "substrate"));
    var a5 := CoatingFloatsOk(lib, c, acc);
    SubstrateOk(lib, c, a5);
  }

  /** The substrate search of a coating pass raises only when the
      substrate's contribution raises. */
  lemma SubstrateOk(lib: Lib, c: Node, acc: Fields)
    requires Converts(Contribution(lib, RoughCoating, c, "substrate"))
    ensures SetSubstrate(lib, c, acc).Ok?
  {
    SetSubstrateSpec(lib, c, acc);
  }

  /** The five float searches of a coating pass go through when their
      contributions convert; a5 is the dict they leave. */
  lemma CoatingFloatsOk(lib: Lib, c: Node, acc: Fields) returns (a5: Fields)
    requires Converts(Contribution(lib, RoughCoating, c, "ior"))
    requires Converts(Contribution(lib, RoughCoating, c, "thickness"))
    requires Converts(Contribution(lib, RoughCoating, c, "distribution"))
    requires Converts(Contribution(lib, RoughCoating, c, "roughness"))
    requires Converts(Contribution(lib, RoughCoating, c, "sigma_a"))
    ensures RoughStep(lib, RoughCoating, c, acc) == SetSubstrate(lib, c, a5)
  {
    var kind := RoughCoating;
    StageOk(lib, kind, c, "eta", "ior", acc);
    var a1 := SetFloat(lib, c, "eta", "ior", acc).value;
    StageOk(lib, kind, c, "thickness", "thickness", a1);
    var a2 := SetFloat(lib, c, "thickness", "thickness", a1).value;
    StageOk(lib, kind, c, "distribution", "distribution", a2);
    var a3 := SetFloat(lib, c, "distribution", "distribution", a2).value;
    StageOk(lib, kind, c, "alpha", "roughness", a3);
    var a4 := SetFloat(lib, c, "alpha", "roughness", a3).value;
    StageOk(lib, kind, c, "sigmaA", "sigma_a", a4);
    a5 := SetFloat(lib, c, "sigmaA", "sigma_a", a4).value;
  }

  /** One pass of the loop raises exactly when one of the child's
      contributions raises, and otherwise writes each contribution over
      `acc`, leaving every other entry as it was. */
  lemma RoughStepSpec(lib: Lib, kind: Kind, c: Node, acc: Fields)
    requires IsRough(kind)
    ensures RoughStep(lib, kind, c, acc).Ok? <==> forall key :: Converts(Contribution(lib, kind, c, key))
    ensures RoughStep(lib, kind, c, acc).Ok? ==>
      forall key :: KeyWritten(lib, kind, c, acc, RoughStep(lib, kind, c, acc).value, key)
  {
    forall key ensures RoughStep(lib, kind, c, acc).Ok? ==>
      Converts(Contribution(lib, kind, c, key)) && KeyWritten(lib, kind, c, acc, RoughStep(lib, kind, c, acc).value, key)
    {
      match kind
      case RoughDielectric => DielectricKey(lib, c, acc, key);
      case RoughConductor => ConductorKey(lib, c, acc, key);
      case RoughCoating => CoatingKey(lib, c, acc, key);
    }
    if forall key :: Converts(Contribution(lib, kind, c, key)) {
      match kind
      case RoughDielectric => DielectricOk(lib, c, acc);
      case RoughConductor => ConductorOk(lib, c, acc);
      case RoughCoating => CoatingOk(lib, c, acc);
    }
  }

  /** One pass of the loop, seen from one key. */
  lemma RoughStepKey(lib: Lib, kind: Kind, c: Node, acc: Fields, key: string)
    requires IsRough(kind)
    ensures RoughStep(lib, kind, c, acc).Ok? ==>
      Converts(Contribution(lib, kind, c, key)) && KeyWritten(lib, kind, c, acc, RoughStep(lib, kind, c, acc).value, key)
  {
    match kind
    case RoughDielectric => DielectricKey(lib, c, acc, key);
    case RoughConductor => ConductorKey(lib, c, acc, key);
    case RoughCoating => CoatingKey(lib, c, acc, key);
  }

  /** A direct child of a rough material whose searches all convert. */
  ghost predicate RoughChildConverts(lib: Lib, kind: Kind, c: Node)
  {
    forall key :: Converts(Contribution(lib, kind, c, key))
  }

  lemma {:induction false} RoughLoopFails(lib: Lib, kind: Kind, n: Node, i: nat, acc: Fields)
    requires IsRough(kind) && i <= |n.children|
    ensures RoughLoop(lib, kind, n, i, acc).Ok? <==>
      forall j :: i <= j < |n.children| ==> RoughChildConverts(lib, kind, n.children[j])
    decreases |n.children| - i
  {
    if i < |n.children| {
      RoughStepSpec(lib, kind, n.children[i], acc);
      if RoughStep(lib, kind, n.children[i], acc).Ok? {
        RoughLoopFails(lib, kind, n, i + 1, RoughStep(lib, kind, n.children[i], acc).value);
      }
    }
  }

  lemma RoughLoopKey(lib: Lib, kind: Kind, n: Node, i: nat, acc: Fields, key: string, r: Fields)
    requires IsRough(kind) && i <= |n.children|
    requires RoughLoop(lib, kind, n, i, acc) == Ok(r)
    ensures key in r <==> key in acc || exists j :: i <= j < |n.children| && Contribution(lib, kind, n.children[j], key).Some?
    ensures (forall j :: i <= j < |n.children| ==> Contribution(lib, kind, n.children[j], key).None?) ==> SameAt(r, acc, key)
    ensures forall j :: i <= j && LastContributor(lib, kind, n.children, j, key) ==>
      Contribution(lib, kind, n.children[j], key).value == Ok(r[key])
  {
    RoughLoopPresent(lib, kind, n, i, acc, key, r);
    RoughLoopKept(lib, kind, n, i, acc, key, r);
    RoughLoopLast(lib, kind, n, i, acc, key, r);
  }

  /** A key is in the converted material exactly when it was there before
      or some child from i on contributes it. */
  lemma {:induction false} RoughLoopPresent(lib: Lib, kind: Kind, n: Node, i: nat, acc: Fields, key: string, r: Fields)
    requires IsRough(kind) && i <= |n.children|
    requires RoughLoop(lib, kind, n, i, acc) == Ok(r)
    ensures key in r <==> key in acc || exists j :: i <= j < |n.children| && Contribution(lib, kind, n.children[j], key).Some?
    decreases |n.children| - i
  {
    if i < |n.children| {
      RoughStepKey(lib, kind, n.children[i], acc, key);
      RoughLoopPresent(lib, kind, n, i + 1, RoughStep(lib, kind, n.children[i], acc).value, key, r);
    }
  }

  /** A key no child from i on contributes keeps its value. */
  lemma {:induction false} RoughLoopKept(lib: Lib, kind: Kind, n: Node, i: nat, acc: Fields, key: string, r: Fields)
    requires IsRough(kind) && i <= |n.children|
    requires RoughLoop(lib, kind, n, i, acc) == Ok(r)
    ensures (forall j :: i <= j < |n.children| ==> Contribution(lib, kind, n.children[j], key).None?) ==> SameAt(r, acc, key)
    decreases |n.children| - i
  {
    if i < |n.children| {
      RoughStepKey(lib, kind, n.children[i], acc, key);
      RoughLoopKept(lib, kind, n, i + 1, RoughStep(lib, kind, n.children[i], acc).value, key, r);
    }
  }

  /** A contributed key holds what its last contributor from i on writes. */
  lemma {:induction false} RoughLoopLast(lib: Lib, kind: Kind, n: Node, i: nat, acc: Fields, key: string, r: Fields)
    requires IsRough(kind) && i <= |n.children|
    requires RoughLoop(lib, kind, n, i, acc) == Ok(r)
    ensures forall j :: i <= j && LastContributor(lib, kind, n.children, j, key) ==>
      key in r && Contribution(lib, kind, n.children[j], key).value == Ok(r[key])
    decreases |n.children| - i
  {
    if i < |n.children| {
      var next := RoughStep(lib, kind, n.children[i], acc).value;
      RoughStepKey(lib, kind, n.children[i], acc, key);
      RoughLoopLast(lib, kind, n, i + 1, next, key, r);
      if LastContributor(lib, kind, n.children, i, key) {
        RoughLoopKept(lib, kind, n, i + 1, next, key, r);
      }
    }
  }

  /** `parseBsdfs` reads `type` and then `id`, raising KeyError for the
      first one missing; it succeeds exactly when both are present and the
      conversions of the kind succeed: a diffuse material's `reflectance`
      has a `value` that `parseRGB` accepts, and every search below a
      rough material's direct children converts. */
  lemma BsdfFails(lib: Lib, n: Node)
    ensures "type" !in n.attrs ==> Bsdf(lib, n) == Err(KeyError("type"))
    ensures "type" in n.attrs && "id" !in n.attrs ==> Bsdf(lib, n) == Err(KeyError("id"))
    ensures Bsdf(lib, n).Ok? <==>
      && "type" in n.attrs && "id" in n.attrs
      && (KindOf(n.attrs["type"]) == Diffuse && HasParam(n, "reflectance") ==>
            var e := Find(n, "reflectance").value;
            "value" in e.attrs && Rgb(lib, e.attrs["value"]).Ok?)
      && (IsRough(KindOf(n.attrs["type"])) ==>
            forall j :: 0 <= j < |n.children| ==> RoughChildConverts(lib, KindOf(n.attrs["type"]), n.children[j]))
  {
    if "type" in n.attrs && "id" in n.attrs && IsRough(KindOf(n.attrs["type"])) {
      var kind := KindOf(n.attrs["type"]);
      RoughLoopFails(lib, kind, n, 0, map["name" := JStr(n.attrs["id"]), "type" := JStr(TypeName(kind))]);
    }
  }

  /** The converted material is named by its id; a supported type is
      renamed to the target renderer's type, and an unsupported one is kept
      as the name alone. */
  lemma BsdfNamed(lib: Lib, n: Node, id: string, d: Fields)
    requires Bsdf(lib, n) == Ok((id, d))
    ensures "id" in n.attrs && id == n.attrs["id"]
    ensures "name" in d && d["name"] == JStr(id)
    ensures "type" in n.attrs
    ensures KindOf(n.attrs["type"]) == Unsupported ==> d == map["name" := JStr(id)]
    ensures KindOf(n.attrs["type"]) != Unsupported ==>
      "type" in d && d["type"] == JStr(TypeName(KindOf(n.attrs["type"])))
  {
    var kind := KindOf(n.attrs["type"]);
    if IsRough(kind) {
      RoughKeepsNameType(lib, kind, n, map["name" := JStr(id), "type" := JStr(TypeName(kind))], d);
    }
  }

  /** No search of a rough pass writes `name` or `type`. */
  lemma RoughKeepsNameType(lib: Lib, kind: Kind, n: Node, acc: Fields, d: Fields)
    requires IsRough(kind)
    requires RoughLoop(lib, kind, n, 0, acc) == Ok(d)
    ensures SameAt(d, acc, "name") && SameAt(d, acc, "type")
  {
    RoughLoopKept(lib, kind, n, 0, acc, "name", d);
    RoughLoopKept(lib, kind, n, 0, acc, "type", d);
  }

  /** A diffuse material holds `albedo` exactly when some element below it
      is named `reflectance`, and then it is the colour `parseRGB` reads
      from the first such element in document order. */
  lemma DiffuseAlbedo(lib: Lib, n: Node, id: string, d: Fields)
    requires Bsdf(lib, n) == Ok((id, d))
    requires KindOf(n.attrs["type"]) == Diffuse
    ensures d.Keys == {"name", "type"} + (if HasParam(n, "reflectance") then {"albedo"} else {})
    ensures HasParam(n, "reflectance") ==>
      var e := Find(n, "reflectance").value;
      && e in Descendants(n) && NamedAs(e, "reflectance")
      && "value" in e.attrs && Rgb(lib, e.attrs["value"]).Ok?
      && d["albedo"] == FloatArray(Rgb(lib, e.attrs["value"]).value)
  {
    FindIsFirstDescendant(n, "reflectance");
  }

  /** A rough material holds, beside `name` and `type`, exactly the entries
      some direct child contributes, each from the last child contributing
      it. */
  lemma RoughEntries(lib: Lib, n: Node, id: string, d: Fields)
    requires Bsdf(lib, n) == Ok((id, d))
    requires IsRough(KindOf(n.attrs["type"]))
    ensures forall key :: key !in {"name", "type"} ==>
      (key in d <==> exists j :: 0 <= j < |n.children| && Contribution(lib, KindOf(n.attrs["type"]), n.children[j], key).Some?)
    ensures forall key, j :: LastContributor(lib, KindOf(n.attrs["type"]), n.children, j, key) ==>
      Contribution(lib, KindOf(n.attrs["type"]), n.children[j], key).value == Ok(d[key])
  {
    var kind := KindOf(n.attrs["type"]);
    var acc := map["name" := JStr(id), "type" := JStr(TypeName(kind))];
    assert RoughLoop(lib, kind, n, 0, acc) == Ok(d);
    forall key ensures key !in {"name", "type"} ==>
        (key in d <==> exists j :: 0 <= j < |n.children| && Contribution(lib, kind, n.children[j], key).Some?)
      ensures forall j :: LastContributor(lib, kind, n.children, j, key) ==>
        Contribution(lib, kind, n.children[j], key).value == Ok(d[key])
    {
      RoughLoopKey(lib, kind, n, 0, acc, key, d);
    }
  }

  /** A rough conductor holds `material` exactly when some direct child has
      a `material` parameter but no `eta` parameter; the value is read from
      the `material` attribute of the last such child's parameter. */
  lemma ConductorMaterial(lib: Lib, n: Node, id: string, d: Fields)
    requires Bsdf(lib, n) == Ok((id, d))
    requires KindOf(n.attrs["type"]) == RoughConductor
    ensures "material" in d <==>
      exists j :: 0 <= j < |n.children| && HasParam(n.children[j], "material") && !HasParam(n.children[j], "eta")
    ensures forall j :: LastContributor(lib, RoughConductor, n.children, j, "material") ==>
      var e := Find(n.children[j], "material").value;
      FloatAttr(lib, e, "material").Ok? && d["material"] == JFloat(FloatAttr(lib, e, "material").value)
  {
    RoughEntries(lib, n, id, d);
  }

  /** A rough coating holds `substrate` exactly when some direct child has
      a parameter named `bsdf`; it is the `(id, dict)` pair of the last such
      child converted as a material in its own right. */
  lemma CoatingSubstrate(lib: Lib, n: Node, id: string, d: Fields)
    requires Bsdf(lib, n) == Ok((id, d))
    requires KindOf(n.attrs["type"]) == RoughCoating
    ensures "substrate" in d <==> exists j :: 0 <= j < |n.children| && HasParam(n.children[j], "bsdf")
    ensures forall j :: LastWithParam(n.children, j, "bsdf") ==>
      Bsdf(lib, n.children[j]).Ok? && d["substrate"] == Pair(Bsdf(lib, n.children[j]).value)
  {
    RoughEntries(lib, n, id, d);
    forall j | LastWithParam(n.children, j, "bsdf")
      ensures LastContributor(lib, RoughCoating, n.children, j, "substrate")
    {
    }
  }

  /** `parseBsdfs` as the source runs it: the dict is filled in place, and
      each direct child of a rough material is searched in turn. */
  method ParseBsdfs(lib: Lib, xml: Node) returns (r: Result<(string, Fields)>)
    ensures r == Bsdf(lib, xml)
    decreases xml, 0
  {
    var bsdfType :- Attr(xml, "type");
    var bsdfId :- Attr(xml, "id");
    var bsdf: Fields := map["name" := JStr(bsdfId)];
    var kind := KindOf(bsdfType);
    if kind == Diffuse {
      bsdf := bsdf["type" := JStr("lambert")];
      var ele := Find(xml, "reflectance");
      if ele.Some? {
        var text :- Attr(ele.value, "value");
        var rgb :- ParseRgb(lib, text);
        bsdf := bsdf["albedo" := FloatArray(rgb)];
      }
    } else if kind != Unsupported {
      bsdf := bsdf["type" := JStr(TypeName(kind))];
      ghost var start := bsdf;
      var i := 0;
      while i < |xml.children|
        invariant 0 <= i <= |xml.children|
        invariant RoughLoop(lib, kind, xml, i, bsdf) == RoughLoop(lib, kind, xml, 0, start)
      {
        bsdf :- ParseRoughChild(lib, kind, xml.children[i], bsdf);
        i := i + 1;
      }
    }
    r := Ok((bsdfId, bsdf));
  }

  /** The body of a rough material's loop for one direct child: the
      parameter searches in source order, and for a coating the substrate
      converted by a recursive `parseBsdfs`. */
  method ParseRoughChild(lib: Lib, kind: Kind, child: Node, bsdf: Fields) returns (r: Result<Fields>)
    requires IsRough(kind)
    ensures r == RoughStep(lib, kind, child, bsdf)
    decreases child, 1
  {
    var acc := bsdf;
    if kind == RoughDielectric {
      acc :- SetFloat(lib, child, "intIOR", "ior", acc);
      acc :- SetFloat(lib, child, "distribution", "distribution", acc);
      acc :- SetFloat(lib, child, "alpha", "roughness", acc);
    } else if kind == RoughConductor {
      acc :- SetFloat(lib, child, "eta", "ior", acc);
      acc :- SetFloat(lib, child, "distribution", "distribution", acc);
      acc :- SetFloat(lib, child, "alpha", "roughness", acc);
      acc :- SetMaterial(lib, child, acc);
    } else {
      acc :- SetFloat(lib, child, "eta", "ior", acc);
      acc :- SetFloat(lib, child, "thickness", "thickness", acc);
      acc :- SetFloat(lib, child, "distribution", "distribution", acc);
      acc :- SetFloat(lib, child, "alpha", "roughness", acc);
      acc :- SetFloat(lib, child, "sigmaA", "sigma_a", acc);
      ghost var floats := acc;
      if HasParam(child, "bsdf") {
        var sub :- ParseBsdfs(lib, child);
        acc := acc["substrate" := Pair(sub)];
      }
      assert Ok(acc) == SetSubstrate(lib, child, floats);
    }
    r := Ok(acc);
  }
}
