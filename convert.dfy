/** `convert`: check the file name, read the format version, walk the tree
    from the root and serialise the scene. Reading and parsing the file is
    left to the caller, which passes the parsed root element. */
module Converter {
  import opened Values
  import opened Text
  import opened Xml
  import opened Scenes
  import opened Walker

  /** What `convert` ends with: False for a file name without the ".xml"
      extension, an exception, or the scene document. */
  datatype Outcome = WrongFormat | Failed(error: Error) | Converted(scene: Json)

  /** `int(root.attrib["version"][0])`: read, but its value is not used. */
  function MajorVersion(lib: Lib, root: Node): (r: Result<int>)
    ensures "version" !in root.attrs ==> r == Err(KeyError("version"))
    ensures "version" in root.attrs && root.attrs["version"] == [] ==> r == Err(IndexError)
    ensures r.Ok? <==>
      "version" in root.attrs && |root.attrs["version"]| > 0 && lib.intOf([root.attrs["version"][0]]).Some?
  {
    var version :- Attr(root, "version");
    if version == [] then Err(IndexError)
    else
      match lib.intOf([version[0]])
      case None => Err(ValueError([version[0]]))
      case Some(v) => Ok(v)
  }

  /** `convert(fname)` on the tree `root` the file parses to. */
  function Conversion(lib: Lib, fname: string, root: Node): (r: Outcome)
    ensures r.WrongFormat? <==> Extension(BaseName(fname)) != ".xml"
    ensures r.Converted? ==> MajorVersion(lib, root).Ok?
    ensures r.Converted? ==> r.scene.JObject? && {"renderer", "bsdfs", "media", "primitives"} <= r.scene.fields.Keys
  {
    if Extension(BaseName(fname)) != ".xml" then WrongFormat else Translation(lib, root)
  }

  /** What `convert` does once the file name is accepted: the version is
      read, then the tree is walked from the initial scene. */
  function Translation(lib: Lib, root: Node): (r: Outcome)
    ensures !r.WrongFormat?
    ensures r.Converted? ==> MajorVersion(lib, root).Ok?
  {
    match MajorVersion(lib, root)
    case Err(e) => Failed(e)
    case Ok(_) =>
      var w := Walk(lib, root, 0, InitialDoc, None);
      if w.err.Some? then Failed(w.err.value) else Converted(DocJson(w.doc))
  }

  /** The file-name check: only a base name ending in ".xml" after some
      character other than a dot is read at all, whatever the directories
      before it. */
  lemma ConversionChecksName(lib: Lib, fname: string, root: Node)
    ensures var base := BaseName(fname);
      Conversion(lib, fname, root).WrongFormat? <==>
        !(|base| > 4 && base[|base| - 4..] == ".xml" && exists k :: 0 <= k < |base| - 4 && base[k] != '.')
  {
    XmlExtension(BaseName(fname));
  }

  /** A converted scene always holds the renderer settings with the
      bounding-volume hierarchy switched on, an empty `media` list, and the
      `bsdfs` and `primitives` lists; `integrator` and `camera` appear only
      when the tree has such elements. Nothing else is written. The root's
      version must be readable even though it is not used. */
  lemma ConvertedShape(lib: Lib, fname: string, root: Node)
    requires Conversion(lib, fname, root).Converted?
    ensures "version" in root.attrs && |root.attrs["version"]| > 0 && lib.intOf([root.attrs["version"][0]]).Some?
    ensures var j := Conversion(lib, fname, root).scene;
      && j.JObject?
      && {"renderer", "bsdfs", "media", "primitives"} <= j.fields.Keys <=
           {"renderer", "bsdfs", "media", "primitives", "integrator", "camera"}
      && j.fields["media"] == JArray([])
      && j.fields["renderer"].JObject?
      && "scene_bvh" in j.fields["renderer"].fields
      && j.fields["renderer"].fields["scene_bvh"] == JBool(true)
      && j.fields["renderer"].fields.Keys <= {"scene_bvh", "spp"}
      && j.fields["bsdfs"].JArray? && j.fields["primitives"].JArray?
  {
    var d := TranslationGrows(lib, root);
    SceneShape(d);
  }

  /** The scene of a successful translation grew from the initial one. */
  lemma TranslationGrows(lib: Lib, root: Node) returns (d: Doc)
    requires Translation(lib, root).Converted?
    ensures Grows(InitialDoc, d) && Translation(lib, root).scene == DocJson(d)
  {
    d := Walk(lib, root, 0, InitialDoc, None).doc;
    WalkGrows(lib, root, 0, InitialDoc, None);
  }

  /** The document of a scene grown from the initial one. */
  lemma SceneShape(d: Doc)
    requires Grows(InitialDoc, d)
    ensures var j := DocJson(d);
      && j.JObject?
      && {"renderer", "bsdfs", "media", "primitives"} <= j.fields.Keys <=
           {"renderer", "bsdfs", "media", "primitives", "integrator", "camera"}
      && j.fields["media"] == JArray([])
      && j.fields["renderer"].JObject?
      && "scene_bvh" in j.fields["renderer"].fields
      && j.fields["renderer"].fields["scene_bvh"] == JBool(true)
      && j.fields["renderer"].fields.Keys <= {"scene_bvh", "spp"}
      && j.fields["bsdfs"].JArray? && j.fields["primitives"].JArray?
  {
    var r := d.renderer;
    assert "scene_bvh" in r && r["scene_bvh"] == JBool(true);
    forall k | k in r ensures k in {"scene_bvh", "spp"} {
      if k != "spp" {
        assert k in InitialDoc.renderer;
      }
    }
  }

  /** `convert` as the source runs it on the parsed tree: the scene dict is
      set up, filled in place by `readRecursively`, and serialised. */
  method Convert(lib: Lib, fname: string, root: Node) returns (out: Outcome)
    ensures out == Conversion(lib, fname, root)
  {
    var scene := new Scene();
    var base := BaseName(fname);
    if Extension(base) != ".xml" {
      return WrongFormat;
    }
    var major := MajorVersion(lib, root);
    if major.Err? {
      return Failed(major.error);
    }
    var err := ReadRecursively(lib, root, scene, null);
    if err.Some? {
      return Failed(err.value);
    }
    out := Converted(DocJson(scene.State()));
  }
}
