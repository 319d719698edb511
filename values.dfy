/** Values shared by the whole converter: the JSON-like output values, the
    Python exceptions a conversion can raise, and the conversions it borrows
    from code outside the converter. */
module Values {

  /** A value of the output scene document. A finite Python float is
      represented by its real value; rounding happens inside the foreign
      conversions. NaN and the infinities have no counterpart here. */
  datatype Json =
    | JBool(b: bool)
    | JInt(i: int)
    | JFloat(f: real)
    | JStr(s: string)
    | JArray(items: seq<Json>)
    | JObject(fields: map<string, Json>)

  /** A Python dict with string keys, as the handlers build them. */
  type Fields = map<string, Json>

  /** A Python list of floats. */
  function FloatArray(vs: seq<real>): (r: Json)
    ensures r.JArray? && |r.items| == |vs|
    ensures forall k :: 0 <= k < |vs| ==> r.items[k] == JFloat(vs[k])
  {
    JArray(seq(|vs|, k requires 0 <= k < |vs| => JFloat(vs[k])))
  }

  /** `d[key]` of a dict that may lack the key. */
  function Lookup(d: Fields, key: string): (r: Option<Json>)
    ensures r.Some? <==> key in d
    ensures r.Some? ==> r.value == d[key]
  {
    if key in d then Some(d[key]) else None
  }

  /** The exceptions the converter can raise. None of them is caught: each
      one aborts the whole conversion. */
  datatype Error =
    | KeyError(key: string)      // a missing key in an attribute map or a dict
    | ValueError(text: string)   // float() or int() rejected a string
    | TypeError                  // float() of an element, or a list times a float
    | IndexError                 // a list position past the end
    | AssertionError             // a failed assert statement
    | AttributeError             // an attribute read on None

  datatype Option<+T> = None | Some(value: T)

  datatype Result<+T> = Ok(value: T) | Err(error: Error) {
    predicate IsFailure() { Err? }

    function PropagateFailure<U>(): Result<U>
      requires Err?
    {
      Err(error)
    }

    function Extract(): T
      requires Ok?
    {
      value
    }
  }

  /** The conversions done by code the converter does not contain: Python's
      float() and int() on a string (None where they raise ValueError), and
      the numeric part of the matrix decomposition, given the 16 entries of
      the matrix in row-major order: the three column norms of its upper-left
      3x3 block (numpy) and the XYZ Euler angles in degrees of that block once
      its columns are normalised (scipy). */
  datatype Lib = Lib(
    floatOf: string -> Option<real>,
    intOf: string -> Option<int>,
    scaleOf: seq<real> -> seq<real>,
    eulerOf: seq<real> -> seq<real>)
}
