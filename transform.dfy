/** `parseTransform`: the structure of the matrix decomposition. The numbers
    of scale and rotation come from the foreign conversions in `Lib`. */
module Transforms {
  import opened Values
  import opened Text
  import opened Xml

  /** The keys one `matrix` child writes. */
  const TransformKeys: set<string> := {"scale", "position", "rotation"}

  /** `[float(t) for t in toks]`: the first token float() rejects raises. */
  function Floats(lib: Lib, toks: seq<string>): (r: Result<seq<real>>)
    ensures r.Ok? <==> forall k :: 0 <= k < |toks| ==> lib.floatOf(toks[k]).Some?
    ensures r.Ok? ==> |r.value| == |toks| && forall k :: 0 <= k < |toks| ==> lib.floatOf(toks[k]) == Some(r.value[k])
  {
    if toks == [] then Ok([])
    else
      match lib.floatOf(toks[0])
      case None => Err(ValueError(toks[0]))
      case Some(f) =>
        var rest :- Floats(lib, toks[1..]);
        assert forall k :: 1 <= k < |toks| ==> toks[k] == toks[1..][k - 1];
        Ok([f] + rest)
  }

  /** The entries one `matrix` child writes: its `value` must split on
      whitespace into exactly 16 numbers (row-major 4x4); `position` is the
      translation column, entries 3, 7 and 11. */
  function Matrix(lib: Lib, m: Node): (r: Result<Fields>)
    ensures "value" !in m.attrs ==> r == Err(KeyError("value"))
    ensures "value" in m.attrs && |Tokens(m.attrs["value"])| != 16 ==> r == Err(AssertionError)
    ensures r.Ok? ==> r.value.Keys == TransformKeys
    ensures r.Ok? ==>
      var toks := Tokens(m.attrs["value"]);
      && |toks| == 16
      && (forall k :: 0 <= k < 16 ==> lib.floatOf(toks[k]).Some?)
      && r.value["position"] == JArray([JFloat(lib.floatOf(toks[3]).value),
                                        JFloat(lib.floatOf(toks[7]).value),
                                        JFloat(lib.floatOf(toks[11]).value)])
  {
    var text :- Attr(m, "value");
    var toks := Tokens(text);
    if |toks| != 16 then Err(AssertionError)
    else
      var vals :- Floats(lib, toks);
      Ok(map[
        "scale" := FloatArray(lib.scaleOf(vals)),
        "position" := JArray([JFloat(vals[3]), JFloat(vals[7]), JFloat(vals[11])]),
        "rotation" := FloatArray(lib.eulerOf(vals))])
  }

  /** The `for child in xml` loop of `parseTransform` from child i on. */
  function TransformLoop(lib: Lib, kids: seq<Node>, i: nat, acc: Fields): (r: Result<Fields>)
    requires i <= |kids|
    ensures r.Ok? ==> r.value.Keys == acc.Keys || r.value.Keys == acc.Keys + TransformKeys
    decreases |kids| - i
  {
    if i == |kids| then Ok(acc)
    else if kids[i].tag == "matrix" then
      var m :- Matrix(lib, kids[i]);
      TransformLoop(lib, kids, i + 1, acc + m)
    else TransformLoop(lib, kids, i + 1, acc)
  }

  /** `parseTransform(n)`. */
  function Transform(lib: Lib, n: Node): (r: Result<Fields>)
    ensures r.Ok? ==> r.value.Keys == {} || r.value.Keys == TransformKeys
  {
    TransformLoop(lib, n.children, 0, map[])
  }

  /** j is the last `matrix` child. */
  predicate LastMatrix(kids: seq<Node>, j: int)
  {
    0 <= j < |kids| && kids[j].tag == "matrix" && forall k :: j < k < |kids| ==> kids[k].tag != "matrix"
  }

  lemma TransformLoopSpec(lib: Lib, kids: seq<Node>, i: nat, acc: Fields)
    requires i <= |kids|
    requires acc.Keys <= TransformKeys
    ensures TransformLoop(lib, kids, i, acc).Ok? <==>
      forall k :: i <= k < |kids| && kids[k].tag == "matrix" ==> Matrix(lib, kids[k]).Ok?
    ensures (forall k :: i <= k < |kids| ==> kids[k].tag != "matrix") ==> TransformLoop(lib, kids, i, acc) == Ok(acc)
    ensures forall j :: i <= j && LastMatrix(kids, j) && TransformLoop(lib, kids, i, acc).Ok? ==>
      TransformLoop(lib, kids, i, acc) == Matrix(lib, kids[j])
  {
    TransformLoopOk(lib, kids, i, acc);
    TransformLoopNoMatrix(lib, kids, i, acc);
    TransformLoopLast(lib, kids, i, acc);
  }

  /** The loop goes through exactly when every `matrix` child from i on
      converts. */
  lemma {:induction false} TransformLoopOk(lib: Lib, kids: seq<Node>, i: nat, acc: Fields)
    requires i <= |kids|
    ensures TransformLoop(lib, kids, i, acc).Ok? <==>
      forall k :: i <= k < |kids| && kids[k].tag == "matrix" ==> Matrix(lib, kids[k]).Ok?
    decreases |kids| - i
  {
    if i < |kids| {
      if kids[i].tag == "matrix" {
        match Matrix(lib, kids[i])
        case Ok(m) => TransformLoopOk(lib, kids, i + 1, acc + m);
        case Err(_) =>
      } else {
        TransformLoopOk(lib, kids, i + 1, acc);
      }
    }
  }

  /** Without a `matrix` child from i on, the loop leaves `acc` as it is. */
  lemma {:induction false} TransformLoopNoMatrix(lib: Lib, kids: seq<Node>, i: nat, acc: Fields)
    requires i <= |kids|
    ensures (forall k :: i <= k < |kids| ==> kids[k].tag != "matrix") ==> TransformLoop(lib, kids, i, acc) == Ok(acc)
    decreases |kids| - i
  {
    if i < |kids| && kids[i].tag != "matrix" {
      TransformLoopNoMatrix(lib, kids, i + 1, acc);
    }
  }

  /** When the loop goes through, its result is what the last `matrix`
      child converts to: each one writes all three keys over `acc`. */
  lemma {:induction false} TransformLoopLast(lib: Lib, kids: seq<Node>, i: nat, acc: Fields)
    requires i <= |kids|
    requires acc.Keys <= TransformKeys
    ensures forall j :: i <= j && LastMatrix(kids, j) && TransformLoop(lib, kids, i, acc).Ok? ==>
      TransformLoop(lib, kids, i, acc) == Matrix(lib, kids[j])
    decreases |kids| - i
  {
    if i < |kids| {
      if kids[i].tag == "matrix" {
        match Matrix(lib, kids[i])
        case Ok(m) =>
          TransformLoopLast(lib, kids, i + 1, acc + m);
          if TransformLoop(lib, kids, i + 1, acc + m).Ok? && LastMatrix(kids, i) {
            TransformLoopNoMatrix(lib, kids, i + 1, acc + m);
            assert acc + m == m;
          }
        case Err(_) =>
      } else {
        TransformLoopLast(lib, kids, i + 1, acc);
      }
    }
  }

  /** `parseTransform` succeeds exactly when every `matrix` child converts;
      without a `matrix` child its result is empty, and otherwise it is what
      the last `matrix` child writes, so it has exactly the keys `scale`,
      `position` and `rotation`. A `matrix` child whose value does not split
      into 16 tokens makes it fail. */
  lemma TransformLastMatrixWins(lib: Lib, n: Node)
    ensures Transform(lib, n).Ok? <==>
      forall k :: 0 <= k < |n.children| && n.children[k].tag == "matrix" ==> Matrix(lib, n.children[k]).Ok?
    ensures (forall k :: 0 <= k < |n.children| ==> n.children[k].tag != "matrix") ==> Transform(lib, n) == Ok(map[])
    ensures forall j :: LastMatrix(n.children, j) && Transform(lib, n).Ok? ==>
      Transform(lib, n) == Matrix(lib, n.children[j]) && Transform(lib, n).value.Keys == TransformKeys
    ensures (exists k :: 0 <= k < |n.children| && n.children[k].tag == "matrix" &&
              "value" in n.children[k].attrs && |Tokens(n.children[k].attrs["value"])| != 16)
            ==> Transform(lib, n).Err?
  {
    TransformLoopSpec(lib, n.children, 0, map[]);
  }

  /** `parseTransform` as the source runs it. */
  method ParseTransform(lib: Lib, xml: Node) returns (r: Result<Fields>)
    ensures r == Transform(lib, xml)
  {
    var transform: Fields := map[];
    var i := 0;
    while i < |xml.children|
      invariant 0 <= i <= |xml.children|
      invariant TransformLoop(lib, xml.children, i, transform) == Transform(lib, xml)
    {
      var child := xml.children[i];
      if child.tag == "matrix" {
        var m := Matrix(lib, child);
        if m.Err? {
          return Err(m.error);
        }
        ghost var before := transform;
        transform := transform["scale" := m.value["scale"]];
        transform := transform["position" := m.value["position"]];
        transform := transform["rotation" := m.value["rotation"]];
        assert transform == before + m.value;
      }
      i := i + 1;
    }
    r := Ok(transform);
  }
}
