/**
 The storage backend seam of internal/storage/storage.go: a map from path to bytes.
 Any call may fail; List enumerates in an arbitrary order.
 */
module Storage {
  import opened Common
  import opened Text

  type Files = map<string, Bytes>

  /** path lies under the directory prefix; "" lists everything but wal/. */
  predicate Under(path: string, prefix: string) {
    if prefix == "" then !HasPrefix(path, "wal/") && path != "wal"
    else path == prefix || HasPrefix(path, prefix + "/")
  }

  /** Nothing was added or altered. */
  predicate OnlyRemoved(before: Files, after: Files) {
    forall p :: p in after ==> p in before && after[p] == before[p]
  }

  datatype Stated = Present(size: nat) | Missing | StatError

  datatype Deletion = Deleted | NotFound | DeleteError

  class Backend {
    var files: Files

    constructor (initial: Files)
      ensures files == initial
    {
      files := initial;
    }

    /** List: exactly the paths under prefix, each once; None when the backend reports an error. */
    method List(prefix: string) returns (r: Option<seq<string>>)
      ensures r.Some? ==>
                && (forall p :: p in r.value <==> p in files && Under(p, prefix))
                && (forall i, j :: 0 <= i < j < |r.value| ==> r.value[i] != r.value[j])
    {
      var fails: bool := *;
      if fails {
        return None;
      }
      var out, rest := [], set p | p in files && Under(p, prefix);
      ghost var all := rest;
      while rest != {}
        invariant rest <= all && forall p :: p in out <==> p in all - rest
        invariant forall i, j :: 0 <= i < j < |out| ==> out[i] != out[j]
        decreases |rest|
      {
        var p :| p in rest;
        assert p !in out;
        rest := rest - {p};
        out := out + [p];
      }
      r := Some(out);
    }

    /** Stat. */
    method Stat(path: string) returns (r: Stated)
      ensures r.Present? ==> path in files && r.size == |files[path]|
      ensures r.Missing? ==> path !in files
    {
      var fails: bool := *;
      if fails {
        return StatError;
      }
      r := if path in files then Present(|files[path]|) else Missing;
    }

    /** Get, read to the end. */
    method Get(path: string) returns (r: Option<Bytes>)
      ensures r.Some? ==> path in files && r.value == files[path]
    {
      var fails: bool := *;
      r := if fails || path !in files then None else Some(files[path]);
    }

    /** Delete: a failed call may or may not have removed the object. */
    method Delete(path: string) returns (r: Deletion)
      modifies this
      ensures files == old(files) || files == old(files) - {path}
      ensures r.Deleted? ==> path in old(files) && files == old(files) - {path}
      ensures r.NotFound? ==> path !in old(files) && files == old(files)
    {
      var fails: bool := *;
      if fails {
        var removed: bool := *;
        files := if removed then files - {path} else files;
        return DeleteError;
      }
      if path !in files {
        return NotFound;
      }
      files := files - {path};
      return Deleted;
    }
  }
}
