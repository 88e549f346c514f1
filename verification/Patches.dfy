/** How the operator applies a merge patch and a JSON patch to an object it is about to write. */
module Patches {
  import opened Common
  import opened JsonPatch

  datatype Patches = Patches(jsonPatch: seq<Op>, mergePatch: Option<Json>)

  /**
   * The libraries: whether a merge patch can be converted to the type of the object, what merging makes of the object
   * and the error it ends with, and what the type of the object keeps of a document. A type may reject a document.
   */
  datatype Library = Library(
    convert: Json -> Option<string>,
    merge: (Json, Json) -> (Json, Option<string>),
    decode: Json -> Call<Json>,
    describe: Fault -> string)

  /** An object of the cluster, seen as the document it is marshalled to. */
  class Resource {
    var contents: Json

    constructor (contents: Json)
      ensures this.contents == contents
    {
      this.contents := contents;
    }
  }

  /** What merging leaves in the object, with or without an error. */
  function Merged(lib: Library, doc: Json, patch: Option<Json>): (Json, Option<string>) {
    match patch
    case None => (doc, None)
    case Some(p) => if lib.convert(p).Some? then (doc, lib.convert(p)) else lib.merge(doc, p)
  }

  function JsonPatched(lib: Library, doc: Json, ops: seq<Op>): Call<Json> {
    if ops == [] then Done(doc)
    else
      match Run(doc, ops)
      case Err(fault) => Failed(Wrap(lib.describe(fault), "failed to apply JSON patch"))
      case Ok(d) => lib.decode(d)
  }

  /** The document the caller gets: merged first, JSON-patched second. */
  function Result(lib: Library, doc: Json, patches: Option<Patches>): Call<Json> {
    match patches
    case None => Done(doc)
    case Some(p) =>
      var (merged, error) := Merged(lib, doc, p.mergePatch);
      if error.Some? then Failed(Wrap(error.value, "while applying merge patch"))
      else
        match JsonPatched(lib, merged, p.jsonPatch)
        case Failed(e) => Failed(Wrap(e, "while applying JSON patch"))
        case Done(d) => Done(d)
  }

  /** Merging works in place; a conversion error leaves the object alone. */
  method ApplyMerge(lib: Library, obj: Resource, patch: Option<Json>) returns (error: Option<string>)
    modifies obj
    ensures (obj.contents, error) == Merged(lib, old(obj.contents), patch)
    ensures patch.None? ==> error.None? && obj.contents == old(obj.contents)
  {
    if patch.None? {
      return None;
    }
    error := lib.convert(patch.value);
    if error.Some? {
      return;
    }
    var (merged, e) := lib.merge(obj.contents, patch.value);
    obj.contents := merged;
    error := e;
  }

  /** A JSON patch is applied to a copy: the object keeps its contents, and only an empty patch hands it back. */
  method ApplyJSONPatch(lib: Library, obj: Resource, ops: seq<Op>) returns (r: Call<Resource>)
    ensures obj.contents == old(obj.contents)
    ensures match JsonPatched(lib, obj.contents, ops)
      case Failed(e) => r == Failed(e)
      case Done(d) => r.Done? && r.value.contents == d
    ensures r.Done? ==> if ops == [] then r.value == obj else fresh(r.value)
  {
    if ops == [] {
      return Done(obj);
    }
    match Run(obj.contents, ops) {
      case Err(fault) => r := Failed(Wrap(lib.describe(fault), "failed to apply JSON patch"));
      case Ok(doc) =>
        match lib.decode(doc) {
          case Failed(e) => r := Failed(e);
          case Done(d) =>
            var copy := new Resource(d);
            r := Done(copy);
        }
    }
  }

  /** The caller's object changes only by merging, which a JSON patch that fails afterwards does not undo. */
  method Apply(lib: Library, resource: Resource, patches: Option<Patches>) returns (r: Call<Resource>)
    modifies resource
    ensures match Result(lib, old(resource.contents), patches)
      case Failed(e) => r == Failed(e)
      case Done(d) => r.Done? && r.value.contents == d
    ensures resource.contents ==
      if patches.None? then old(resource.contents) else Merged(lib, old(resource.contents), patches.value.mergePatch).0
    ensures r.Done? ==> if patches.None? || patches.value.jsonPatch == [] then r.value == resource else fresh(r.value)
  {
    if patches.None? {
      return Done(resource);
    }
    var error := ApplyMerge(lib, resource, patches.value.mergePatch);
    if error.Some? {
      return Failed(Wrap(error.value, "while applying merge patch"));
    }
    r := ApplyJSONPatch(lib, resource, patches.value.jsonPatch);
    if r.Failed? {
      r := Failed(Wrap(r.error, "while applying JSON patch"));
    }
  }

  /** The merge patch comes first. One that cannot be converted leaves the document alone; one that fails may not. */
  lemma MergeFailures(lib: Library, doc: Json, ops: seq<Op>, p: Json)
    ensures Result(lib, doc, None) == Done(doc)
    ensures lib.convert(p).Some? ==>
      && Result(lib, doc, Some(Patches(ops, Some(p))))
         == Failed("while applying merge patch" + ": " + lib.convert(p).value)
      && Merged(lib, doc, Some(p)).0 == doc
    ensures lib.convert(p).None? ==> Merged(lib, doc, Some(p)).0 == lib.merge(doc, p).0
    ensures lib.convert(p).None? && lib.merge(doc, p).1.Some? ==>
      Result(lib, doc, Some(Patches(ops, Some(p))))
      == Failed("while applying merge patch" + ": " + lib.merge(doc, p).1.value)
    ensures Merged(lib, doc, None).0 == doc
  {
  }

  /**
   * Without such a failure the operations run on the merged document, and on the document itself only when there is no
   * merge patch. The caller gets what the type of the object keeps of the result, or the error of the operations or of
   * the type.
   */
  lemma PatchesRunOnMerged(lib: Library, doc: Json, ops: seq<Op>, patch: Option<Json>, merged: Json, ran: Patched)
    requires if patch.None? then merged == doc
      else lib.convert(patch.value).None? && lib.merge(doc, patch.value) == (merged, None)
    requires ops != [] ==> ran == Run(merged, ops)
    ensures var r := Result(lib, doc, Some(Patches(ops, patch)));
      if ops == [] then r == Done(merged)
      else if ran.Ok? then
        match lib.decode(ran.doc)
        case Done(d) => r == Done(d)
        case Failed(e) => r == Failed("while applying JSON patch" + ": " + e)
      else
        r == Failed("while applying JSON patch" + ": " + "failed to apply JSON patch" + ": " + lib.describe(ran.fault))
  {
    OnMerged(lib, doc, ops, patch, merged);
    var r := JsonPatched(lib, merged, ops);
    if ops != [] {
      RanOnMerged(lib, merged, ops, ran);
      if ran.Err? { Nested("while applying JSON patch", "failed to apply JSON patch", lib.describe(ran.fault)); }
    }
  }

  lemma OnMerged(lib: Library, doc: Json, ops: seq<Op>, patch: Option<Json>, merged: Json)
    requires if patch.None? then merged == doc
      else lib.convert(patch.value).None? && lib.merge(doc, patch.value) == (merged, None)
    ensures Result(lib, doc, Some(Patches(ops, patch))) ==
      match JsonPatched(lib, merged, ops)
      case Failed(e) => Failed(Wrap(e, "while applying JSON patch"))
      case Done(d) => Done(d)
  {
  }

  lemma RanOnMerged(lib: Library, merged: Json, ops: seq<Op>, ran: Patched)
    requires ops != [] && ran == Run(merged, ops)
    ensures JsonPatched(lib, merged, ops) ==
      match ran
      case Err(fault) => Failed(Wrap(lib.describe(fault), "failed to apply JSON patch"))
      case Ok(d) => lib.decode(d)
  {
  }

  lemma Nested(outer: string, inner: string, e: string)
    ensures Wrap(Wrap(e, inner), outer) == outer + ": " + inner + ": " + e
  {
    assert outer + ": " + (inner + ": " + e) == outer + ": " + inner + ": " + e;
  }

  /**
   * Splitting a JSON patch in two and applying the halves gives the same result whenever the type of the object keeps
   * the document between them as it is.
   */
  lemma SplitJsonPatch(lib: Library, doc: Json, a: seq<Op>, b: seq<Op>)
    requires a != [] && b != []
    requires Run(doc, a).Ok? ==> lib.decode(Run(doc, a).doc) == Done(Run(doc, a).doc)
    ensures JsonPatched(lib, doc, a + b) ==
      match JsonPatched(lib, doc, a)
      case Failed(e) => Failed(e)
      case Done(d) => JsonPatched(lib, d, b)
  {
    RunConcat(doc, a, b);
  }
}
