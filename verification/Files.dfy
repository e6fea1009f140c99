/** A directory as a map from names to contents. Every operation may fail, and `trace` records every
    state the directory passes through, so a statement about all of `trace` covers a process that dies
    between any two operations. `faults` counts the failures that the state does not explain. */
module Files {

  class FileSystem<T(0)> {
    var files: map<string, T>
    ghost var trace: seq<map<string, T>>
    ghost var faults: nat

    /** The trace ends in the current state. */
    ghost predicate Valid()
      reads this
    {
      trace != [] && trace[|trace| - 1] == files
    }

    /** Counts an injected failure. */
    ghost method Note(fails: bool)
      modifies this`faults
      ensures faults == if fails then old(faults) + 1 else old(faults)
    {
      if fails {
        faults := faults + 1;
      }
    }

    method Remove(name: string) returns (ok: bool)
      modifies this
      ensures Valid() && trace == old(trace) + [files] && faults >= old(faults)
      ensures ok ==> name in old(files) && files == old(files) - {name}
      ensures !ok ==> files == old(files)
      ensures faults == old(faults) ==> files == old(files) - {name}
    {
      var fails: bool := *;
      Note(fails);
      ok := name in files && !fails;
      if ok {
        files := files - {name};
      } else {
        assert name !in files ==> files - {name} == files;
      }
      trace := trace + [files];
    }

    /** Rename replaces whatever `to` named. */
    method Rename(from: string, to: string) returns (ok: bool)
      modifies this
      ensures Valid() && trace == old(trace) + [files] && faults >= old(faults)
      ensures ok ==> from in old(files) && files == (old(files) - {from})[to := old(files)[from]]
      ensures !ok ==> files == old(files)
      ensures !ok && from in old(files) ==> faults > old(faults)
    {
      var fails: bool := *;
      Note(fails);
      ok := from in files && !fails;
      if ok {
        var content := files[from];
        files := (files - {from})[to := content];
      }
      trace := trace + [files];
    }

    /** A hard link; an existing `to` is not replaced. */
    method Link(from: string, to: string) returns (ok: bool)
      modifies this
      ensures Valid() && trace == old(trace) + [files] && faults >= old(faults)
      ensures ok ==> from in old(files) && to !in old(files) && files == old(files)[to := old(files)[from]]
      ensures !ok ==> files == old(files)
      ensures !ok && from in old(files) && to !in old(files) ==> faults > old(faults)
    {
      var fails: bool := *;
      Note(fails);
      ok := from in files && to !in files && !fails;
      if ok {
        files := files[to := files[from]];
      }
      trace := trace + [files];
    }

    /** Opens `name` for writing, truncated. Until it is written it holds anything. */
    method Create(name: string) returns (ok: bool)
      modifies this
      ensures Valid() && trace == old(trace) + [files] && faults >= old(faults)
      ensures ok ==> name in files && files - {name} == old(files) - {name}
      ensures !ok ==> files == old(files) && faults > old(faults)
    {
      var fails: bool := *;
      Note(fails);
      ok := !fails;
      if ok {
        var empty: T := *;
        files := files[name := empty];
      }
      trace := trace + [files];
    }

    /** Copies `whole` into an open file. Before that is done, and for good when it fails, the file
        holds anything. */
    method Copy(name: string, whole: T) returns (ok: bool)
      requires name in files
      modifies this
      ensures Valid() && old(trace) <= trace && |trace| == |old(trace)| + 2 && faults >= old(faults)
      ensures forall i :: |old(trace)| <= i < |trace| ==> trace[i] - {name} == old(files) - {name}
      ensures ok ==> files == old(files)[name := whole]
      ensures !ok ==> faults > old(faults)
    {
      ghost var before := files;
      var fails: bool := *;
      Note(fails);
      var part: T := *;
      files := files[name := part];
      trace := trace + [files];
      ok := !fails;
      if ok {
        files := files[name := whole];
        assert files == before[name := whole];
      }
      trace := trace + [files];
    }
  }
}
