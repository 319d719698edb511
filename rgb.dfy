/** `parseRGB`: a colour given as comma-separated channels. */
module Colors {
  import opened Values
  import opened Text
  import opened Xml

  /** The colour `parseRGB` returns for a value string, or what it raises.
      Only a value with a comma can succeed: without one the code multiplies
      the list [1.0] by a float, which Python refuses. */
  function Rgb(lib: Lib, value: string): (r: Result<seq<real>>)
    ensures r.Ok? ==> |r.value| == 3
    ensures ',' !in value ==> r.Err?
    ensures ',' !in value && lib.floatOf(value).Some? ==> r == Err(TypeError)
    ensures ',' !in value && lib.floatOf(value).None? ==> r == Err(ValueError(value))
  {
    if ',' in value then Fill(lib, SplitOn(value, ','), 0, [0.0, 0.0, 0.0])
    else
      match lib.floatOf(value)
      case None => Err(ValueError(value))
      case Some(_) => Err(TypeError)
  }

  /** The `for i, val in enumerate(pieces)` loop from piece i on: each piece
      is converted before it is stored at position i of the three-element
      list, so a fourth piece that converts raises IndexError. */
  function Fill(lib: Lib, pieces: seq<string>, i: nat, spec: seq<real>): (r: Result<seq<real>>)
    requires i <= |pieces| && |spec| == 3
    ensures r.Ok? ==> |r.value| == 3
    decreases |pieces| - i
  {
    if i == |pieces| then Ok(spec)
    else
      match lib.floatOf(pieces[i])
      case None => Err(ValueError(pieces[i]))
      case Some(f) => if i < 3 then Fill(lib, pieces, i + 1, spec[i := f]) else Err(IndexError)
  }

  /** `parseRGB` handed an element instead of its value string (as the
      emitter handler does): no child of an element equals the string ",",
      so the scalar branch runs and float() rejects the element. */
  function RgbOfElement(e: Node): (r: Result<seq<real>>)
    ensures r == Err(TypeError)
  {
    Err(TypeError)
  }

  lemma {:induction false} FillSpec(lib: Lib, pieces: seq<string>, i: nat, spec: seq<real>)
    requires i <= |pieces| && i <= 3 && |spec| == 3
    ensures Fill(lib, pieces, i, spec).Ok? <==>
      |pieces| <= 3 && forall k :: i <= k < |pieces| ==> lib.floatOf(pieces[k]).Some?
    ensures Fill(lib, pieces, i, spec).Ok? ==> forall k :: 0 <= k < 3 ==>
      Fill(lib, pieces, i, spec).value[k] == if i <= k < |pieces| then lib.floatOf(pieces[k]).value else spec[k]
    ensures forall k ::
      (i <= k < |pieces| && k <= 3 && lib.floatOf(pieces[k]).None? && forall m :: i <= m < k ==> lib.floatOf(pieces[m]).Some?) ==>
        Fill(lib, pieces, i, spec) == Err(ValueError(pieces[k]))
    ensures |pieces| > 3 && (forall k :: i <= k <= 3 ==> lib.floatOf(pieces[k]).Some?) ==> Fill(lib, pieces, i, spec) == Err(IndexError)
    decreases |pieces| - i
  {
    if i < |pieces| && lib.floatOf(pieces[i]).Some? && i < 3 {
      FillSpec(lib, pieces, i + 1, spec[i := lib.floatOf(pieces[i]).value]);
    }
  }

  /** A value converts exactly when it has a comma, at most three
      comma-separated pieces, and every piece converts; then channel k is
      the k-th piece and a channel with no piece stays 0.0. */
  lemma RgbChannels(lib: Lib, value: string)
    ensures Rgb(lib, value).Ok? <==>
      ',' in value && |SplitOn(value, ',')| <= 3 &&
      forall p :: p in SplitOn(value, ',') ==> lib.floatOf(p).Some?
    ensures Rgb(lib, value).Ok? ==> forall k :: 0 <= k < 3 ==>
      Rgb(lib, value).value[k] ==
        if k < |SplitOn(value, ',')| then lib.floatOf(SplitOn(value, ',')[k]).value else 0.0
  {
    if ',' in value {
      var pieces := SplitOn(value, ',');
      FillSpec(lib, pieces, 0, [0.0, 0.0, 0.0]);
      if forall k :: 0 <= k < |pieces| ==> lib.floatOf(pieces[k]).Some? {
        forall p | p in pieces ensures lib.floatOf(p).Some? {
          var k :| 0 <= k < |pieces| && pieces[k] == p;
        }
      }
    }
  }

  /** `parseRGB` as the source runs it: a three-element list filled in place. */
  method ParseRgb(lib: Lib, value: string) returns (r: Result<seq<real>>)
    ensures r == Rgb(lib, value)
  {
    var spec := new real[3](_ => 0.0);
    if ',' in value {
      var pieces := SplitOn(value, ',');
      assert spec[..] == [0.0, 0.0, 0.0];
      var i := 0;
      while i < |pieces|
        invariant 0 <= i <= |pieces|
        invariant Fill(lib, pieces, i, spec[..]) == Fill(lib, pieces, 0, [0.0, 0.0, 0.0])
      {
        var f := lib.floatOf(pieces[i]);
        if f.None? {
          return Err(ValueError(pieces[i]));
        }
        if i >= spec.Length {
          return Err(IndexError);
        }
        spec[i] := f.value;
        i := i + 1;
      }
      r := Ok(spec[..]);
    } else {
      var f := lib.floatOf(value);
      if f.None? {
        return Err(ValueError(value));
      }
      r := Err(TypeError);
    }
  }
}
