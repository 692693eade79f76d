/** The temp-file-plus-rename write of the history file, under failures and crashes at every step. */
module AtomicWrite {
  import opened Seqs
  import opened Bytes

  type Name = seq<byte>

  // synced: the content has reached the disk, so a crash preserves it.
  datatype File = File(data: seq<byte>, synced: bool)

  type Files = map<Name, File>

  // What each system call of one write does. A failing write may have written any part of the data.
  datatype Faults = Faults(mkdir: bool, temp: Option<Name>, written: nat, sync: bool, close: bool, rename: bool,
                           remove: bool)

  // A crash keeps what was synced and may leave anything in a file that was not.
  ghost predicate AfterCrash(before: Files, after: Files) {
    before.Keys == after.Keys && forall n :: n in before && before[n].synced ==> after[n] == before[n]
  }

  // Whatever the crash does, the file at path is the one in a or the one in b, whole.
  ghost predicate CrashSafe(fs: Files, path: Name, a: Option<File>, b: Option<File>) {
    forall after: Files :: AfterCrash(fs, after) ==> Lookup(after, path) == a || Lookup(after, path) == b
  }

  function Lookup(fs: Files, n: Name): Option<File> {
    if n in fs then Some(fs[n]) else None
  }

  // What is at path before the write has been synced, by the write that put it there.
  ghost predicate Settled(fs: Files, path: Name) {
    path in fs ==> fs[path].synced
  }

  lemma UntouchedIsSafe(fs: Files, base: Files, temp: Name, path: Name, b: Option<File>)
    requires fs - {temp} == base - {temp} && temp != path && Settled(base, path)
    ensures CrashSafe(fs, path, Lookup(base, path), b)
  {
    assert path in fs <==> path in fs - {temp};
    assert path in base <==> path in base - {temp};
    assert path in base ==> (fs - {temp})[path] == (base - {temp})[path];
  }

  lemma SyncedIsSafe(fs: Files, path: Name, a: Option<File>, f: File)
    requires path in fs && fs[path] == f && f.synced
    ensures CrashSafe(fs, path, a, Some(f))
  {
  }

  // Hence the sync before the rename: content renamed into place unsynced can be anything after a crash.
  lemma UnsyncedIsUnsafe(fs: Files, path: Name, a: Option<File>, b: Option<File>)
    requires path in fs && !fs[path].synced
    ensures !CrashSafe(fs, path, a, b)
  {
    var torn := [File([], false), File([], true), File([0], true)];
    var i :| 0 <= i < 3 && Some(torn[i]) != a && Some(torn[i]) != b by {
      assert torn[0] != torn[1] && torn[0] != torn[2] && torn[1] != torn[2];
      if Some(torn[0]) == a || Some(torn[0]) == b {
        if Some(torn[1]) == a || Some(torn[1]) == b {
          assert Some(torn[2]) != a && Some(torn[2]) != b;
        }
      }
    }
    assert AfterCrash(fs, fs[path := torn[i]]);
  }

  class Disk {
    var files: Files
    ghost var trace: seq<Files>  // every state since the object was made, the current one last

    ghost predicate Valid()
      reads this
    {
      |trace| > 0 && trace[|trace| - 1] == files
    }

    ghost predicate Extends(before: seq<Files>)
      reads this
    {
      Valid() && |before| <= |trace| && trace[..|before|] == before
    }

    constructor (files: Files)
      ensures Valid() && this.files == files
    {
      this.files := files;
      trace := [files];
    }

    method Put(name: Name, f: File)
      requires Valid()
      modifies this
      ensures Valid() && files == old(files)[name := f] && trace == old(trace) + [files]
    {
      files := files[name := f];
      trace := trace + [files];
    }

    method Rename(source: Name, target: Name)
      requires Valid() && source in files
      modifies this
      ensures Valid() && files == old(files)[target := old(files)[source]] - {source} && trace == old(trace) + [files]
    {
      files := files[target := files[source]] - {source};
      trace := trace + [files];
    }

    method Remove(name: Name)
      requires Valid()
      modifies this
      ensures Valid() && files == old(files) - {name} && trace == old(trace) + [files]
    {
      files := files - {name};
      trace := trace + [files];
    }

    // Writes, syncs and closes the temporary file; a partial write leaves a prefix of the data behind.
    method FillTemp(temp: Name, data: seq<byte>, faults: Faults) returns (ok: bool)
      requires Valid() && temp in files
      modifies this
      ensures Extends(old(trace)) && temp in files && files == old(files)[temp := files[temp]]
      ensures forall i :: |old(trace)| <= i < |trace| ==> trace[i] - {temp} == old(files) - {temp}
      ensures ok ==> files[temp] == File(data, true)
      ensures ok <==> faults.written >= |data| && faults.sync && faults.close
    {
      if faults.written < |data| {
        Put(temp, File(data[..faults.written], false));
        return false;
      }
      Put(temp, File(data, false));
      if !faults.sync {
        return false;
      }
      Put(temp, File(data, true));
      ok := faults.close;
    }

    // On success path holds data, durably; on failure it holds what it held. A crash at any moment leaves it whole:
    // what it held before or, once renamed, data. Nothing else is touched, but for a temporary file that could not be
    // removed.
    method WriteFileAtomic(path: Name, data: seq<byte>, faults: Faults) returns (ok: bool)
      requires Valid() && Settled(files, path)
      requires faults.temp.Some? ==> faults.temp.value !in files && faults.temp.value != path
      modifies this
      ensures Extends(old(trace)) && Settled(files, path)
      ensures ok <==> (faults.mkdir && faults.temp.Some? && faults.written >= |data|
                       && faults.sync && faults.close && faults.rename)
      ensures ok ==> files == old(files)[path := File(data, true)]
      ensures !ok ==>
                (files == old(files)
                 || (!faults.remove && faults.temp.Some? && files - {faults.temp.value} == old(files)))
      ensures forall i :: |old(trace)| <= i < |trace| ==>
                CrashSafe(trace[i], path, Lookup(old(files), path),
                          if ok then Some(File(data, true)) else Lookup(old(files), path))
    {
      if !faults.mkdir || faults.temp.None? {
        return false;
      }
      var temp := faults.temp.value;
      Put(temp, File([], false));
      var filled := FillTemp(temp, data, faults);
      forall i | |old(trace)| <= i < |trace|
        ensures trace[i] - {temp} == old(files) - {temp}
      {
      }
      if filled && faults.rename {
        ghost var before := trace;
        Rename(temp, path);
        forall i | |old(trace)| <= i < |trace|
          ensures CrashSafe(trace[i], path, Lookup(old(files), path), Some(File(data, true)))
        {
          if i < |before| {
            UntouchedIsSafe(trace[i], old(files), temp, path, Some(File(data, true)));
          } else {
            SyncedIsSafe(trace[i], path, Lookup(old(files), path), File(data, true));
          }
        }
        return true;
      }
      if faults.remove {
        Remove(temp);
      }
      forall i | |old(trace)| <= i < |trace|
        ensures CrashSafe(trace[i], path, Lookup(old(files), path), Lookup(old(files), path))
      {
        UntouchedIsSafe(trace[i], old(files), temp, path, Lookup(old(files), path));
      }
      ok := false;
    }
  }
}
