/** The parsed scene file as an immutable tree, the search ElementTree's
    find() runs for a path selecting every descendant with a given `name`
    attribute, and the reads of an element's attributes that can raise. */
module Xml {
  import opened Values

  /** An element: its tag, its attributes and its children in document order. */
  datatype Node = Node(tag: string, attrs: map<string, string>, children: seq<Node>)

  /** The element carries a `name` attribute equal to `name`. */
  predicate NamedAs(n: Node, name: string)
  {
    "name" in n.attrs && n.attrs["name"] == name
  }

  /** Every element of a forest in document order: each tree's root, then
      the root's descendants, then the following trees. */
  function Preorder(kids: seq<Node>): seq<Node>
    decreases kids
  {
    if kids == [] then [] else [kids[0]] + Preorder(kids[0].children) + Preorder(kids[1..])
  }

  /** The strict descendants of n in document order. */
  function Descendants(n: Node): seq<Node>
  {
    Preorder(n.children)
  }

  /** The first element of s named `name`: the reference a search is
      measured against. */
  function FirstNamed(s: seq<Node>, name: string): (r: Option<Node>)
    ensures r.None? <==> forall k :: 0 <= k < |s| ==> !NamedAs(s[k], name)
    ensures r.Some? ==> exists k :: 0 <= k < |s| && s[k] == r.value && NamedAs(s[k], name) &&
                          forall j :: 0 <= j < k ==> !NamedAs(s[j], name)
  {
    if s == [] then None
    else if NamedAs(s[0], name) then Some(s[0])
    else
      var r := FirstNamed(s[1..], name);
      assert forall k :: 1 <= k < |s| ==> s[k] == s[1..][k - 1];
      r
  }

  /** The search ElementTree's find() runs below a forest for the path that
      selects any descendant whose name attribute is `name`:
      each tree's root is tested, then its subtree, then the following trees. */
  function FindIn(kids: seq<Node>, name: string): (r: Option<Node>)
    ensures r.Some? ==> NamedAs(r.value, name)
    decreases kids
  {
    if kids == [] then None
    else if NamedAs(kids[0], name) then Some(kids[0])
    else
      match FindIn(kids[0].children, name)
      case Some(e) => Some(e)
      case None => FindIn(kids[1..], name)
  }

  /** `n.find(...)` for any descendant named `name`: only the strict
      descendants of n are searched. */
  function Find(n: Node, name: string): (r: Option<Node>)
    ensures r.Some? ==> NamedAs(r.value, name)
  {
    FindIn(n.children, name)
  }

  /** Some strict descendant of n is named `name`. */
  predicate HasParam(n: Node, name: string)
  {
    Find(n, name).Some?
  }

  /** j is the last of the direct children `kids` that has a descendant named `name`. */
  predicate LastWithParam(kids: seq<Node>, j: int, name: string)
  {
    0 <= j < |kids| && HasParam(kids[j], name) &&
    forall k :: j < k < |kids| ==> !HasParam(kids[k], name)
  }

  lemma {:induction false} FirstNamedAppend(a: seq<Node>, b: seq<Node>, name: string)
    ensures FirstNamed(a + b, name) ==
      if FirstNamed(a, name).Some? then FirstNamed(a, name) else FirstNamed(b, name)
  {
    if a == [] {
      assert a + b == b;
    } else {
      assert (a + b)[1..] == a[1..] + b;
      FirstNamedAppend(a[1..], b, name);
    }
  }

  lemma {:induction false} FindInIsFirstInPreorder(kids: seq<Node>, name: string)
    ensures FindIn(kids, name) == FirstNamed(Preorder(kids), name)
    decreases kids
  {
    if kids != [] {
      var below, after := Preorder(kids[0].children), Preorder(kids[1..]);
      FindInIsFirstInPreorder(kids[0].children, name);
      FindInIsFirstInPreorder(kids[1..], name);
      FirstNamedAppend(below, after, name);
      assert Preorder(kids) == [kids[0]] + (below + after);
      FirstNamedCons(kids[0], below + after, name);
    }
  }

  lemma FirstNamedCons(e: Node, s: seq<Node>, name: string)
    ensures FirstNamed([e] + s, name) == if NamedAs(e, name) then Some(e) else FirstNamed(s, name)
  {
    assert ([e] + s)[1..] == s;
  }

  /** The height of a tree; a leaf has height 1. */
  function Height(n: Node): nat
    decreases n, 1
  {
    1 + ForestHeight(n.children)
  }

  function ForestHeight(kids: seq<Node>): nat
    decreases kids
  {
    if kids == [] then 0
    else
      var h, rest := Height(kids[0]), ForestHeight(kids[1..]);
      if h < rest then rest else h
  }

  lemma {:induction false} PreorderIsLower(kids: seq<Node>)
    ensures forall e :: e in Preorder(kids) ==> Height(e) <= ForestHeight(kids)
    decreases kids
  {
    if kids != [] {
      PreorderIsLower(kids[0].children);
      PreorderIsLower(kids[1..]);
      assert Preorder(kids) == [kids[0]] + Preorder(kids[0].children) + Preorder(kids[1..]);
    }
  }

  /** The search below n returns the first strict descendant of n, in
      document order, that is named `name`, and nothing exactly when no
      strict descendant is; n itself is never the answer. */
  lemma FindIsFirstDescendant(n: Node, name: string)
    ensures Find(n, name) == FirstNamed(Descendants(n), name)
    ensures Find(n, name).Some? ==> Find(n, name).value in Descendants(n) && NamedAs(Find(n, name).value, name)
    ensures Find(n, name).None? <==> forall e :: e in Descendants(n) ==> !NamedAs(e, name)
    ensures Find(n, name) != Some(n)
  {
    FindInIsFirstInPreorder(n.children, name);
    PreorderIsLower(n.children);
    assert n !in Descendants(n);
    var s := Descendants(n);
    if Find(n, name).None? {
      forall e | e in s ensures !NamedAs(e, name) {
        var k :| 0 <= k < |s| && s[k] == e;
      }
    }
  }

  /** `n.attrib[key]`: a KeyError when the attribute is absent. */
  function Attr(n: Node, key: string): (r: Result<string>)
    ensures r.Ok? <==> key in n.attrs
    ensures r.Ok? ==> r.value == n.attrs[key]
    ensures r.Err? ==> r.error == KeyError(key)
  {
    if key in n.attrs then Ok(n.attrs[key]) else Err(KeyError(key))
  }

  /** `float(n.attrib[key])`. */
  function FloatAttr(lib: Lib, n: Node, key: string): (r: Result<real>)
    ensures r.Ok? <==> key in n.attrs && lib.floatOf(n.attrs[key]).Some?
    ensures r.Ok? ==> Some(r.value) == lib.floatOf(n.attrs[key])
    ensures key !in n.attrs ==> r == Err(KeyError(key))
    ensures key in n.attrs && r.Err? ==> r == Err(ValueError(n.attrs[key]))
  {
    var text :- Attr(n, key);
    match lib.floatOf(text)
    case Some(f) => Ok(f)
    case None => Err(ValueError(text))
  }

  /** `int(n.attrib[key])`. */
  function IntAttr(lib: Lib, n: Node, key: string): (r: Result<int>)
    ensures r.Ok? <==> key in n.attrs && lib.intOf(n.attrs[key]).Some?
    ensures r.Ok? ==> Some(r.value) == lib.intOf(n.attrs[key])
    ensures key !in n.attrs ==> r == Err(KeyError(key))
    ensures key in n.attrs && r.Err? ==> r == Err(ValueError(n.attrs[key]))
  {
    var text :- Attr(n, key);
    match lib.intOf(text)
    case Some(v) => Ok(v)
    case None => Err(ValueError(text))
  }

  /** `int(e.attrib["value"])` of the first descendant e of n named
      `name`, or nothing when n has none: how an integer parameter such as
      `maxDepth` or `sampleCount` is read. */
  function IntParam(lib: Lib, n: Node, name: string): (r: Option<Result<int>>)
    ensures r.None? <==> !HasParam(n, name)
    ensures r.Some? ==> var e := Find(n, name).value;
      NamedAs(e, name) && (r.value.Ok? <==> "value" in e.attrs && lib.intOf(e.attrs["value"]).Some?)
  {
    match Find(n, name)
    case None => None
    case Some(e) => Some(IntAttr(lib, e, "value"))
  }
}
