/** What one store puts into staging_files, read off its request: the paths, the metadata that stat() gave, which file
    is the main one, and the fingerprints. */
module StagedFiles {
  import opened Wrappers
  import opened Index
  import opened Tables
  import opened Staging

  predicate NamesMain(r: Request, path: Text) {
    r.mainFile.Some? && r.mainFile.value.path == path
  }

  /** The last entry with records for a path: ON CONFLICT(path) lets it win. */
  predicate LastEntry(r: Request, path: Text, i: nat) {
    && i < |r.files| && r.files[i].path == path && r.files[i].recordCount > 0
    && forall j | i < j < |r.files| && r.files[j].path == path :: r.files[j].recordCount == 0
  }

  /** A stat() with this modification time and size, or none and zeros. */
  predicate SeenAs(stat: Option<Stat>, mtime: int, size: int) {
    match stat
    case Some(found) => found.mtime == mtime && found.size == size
    case None => mtime == 0 && size == 0
  }

  /** The store found the path with this modification time and size. */
  ghost predicate SeenBy(r: Request, path: Text, mtime: int, size: int) {
    if NamesMain(r, path) then SeenAs(r.mainFile.value.stat, mtime, size)
    else exists i: nat :: LastEntry(r, path, i) && SeenAs(r.files[i].stat, mtime, size)
  }

  /** The path is the main file's, or names the same device and inode. */
  ghost predicate IsMainPath(r: Request, path: Text) {
    || NamesMain(r, path)
    || (r.mainFile.Some? && exists i: nat ::
          LastEntry(r, path, i)
          && match (r.files[i].stat, r.mainFile.value.stat)
             case (Some(a), Some(b)) => a.device == b.device && a.inode == b.inode
             case _ => false)
  }

  ghost predicate FingerprintOf(r: Request, path: Text, fp: Fingerprint) {
    !IsMainPath(r, path) && exists i: nat :: LastEntry(r, path, i) && r.files[i].fingerprint == fp
  }

  lemma {:induction false} EntriesOf(r: Request, n: nat, path: Text) returns (i: nat)
    requires n <= |r.files|
    ensures path !in StageEntries(r, n) ==>
              forall j | 0 <= j < n && r.files[j].path == path :: r.files[j].recordCount == 0
    ensures path in StageEntries(r, n) ==>
              && i < n && r.files[i].path == path && r.files[i].recordCount > 0
              && (forall j | i < j < n && r.files[j].path == path :: r.files[j].recordCount == 0)
              && StageEntries(r, n)[path]
                 == StagedFile(Meta(r.files[i].stat), SameInode(r.files[i], r.mainFile), Some(i),
                               if SameInode(r.files[i], r.mainFile) then None else Some(r.files[i].fingerprint), false)
  {
    i := 0;
    if n > 0 {
      i := EntriesOf(r, n - 1, path);
      if r.files[n - 1].recordCount > 0 && r.files[n - 1].path == path {
        i := n - 1;
      }
    }
  }

  lemma OneLastEntry(r: Request, path: Text, i: nat, j: nat)
    requires LastEntry(r, path, i) && LastEntry(r, path, j)
    ensures i == j
  {
  }

  /** What the map holds for a path, when the last entry is known. */
  lemma FreshFile(r: Request, path: Text, i: nat)
    requires LastEntry(r, path, i) && path in StageEntries(r, |r.files|)
    requires StageEntries(r, |r.files|)[path]
             == StagedFile(Meta(r.files[i].stat), SameInode(r.files[i], r.mainFile), Some(i),
                           if SameInode(r.files[i], r.mainFile) then None else Some(r.files[i].fingerprint), false)
    ensures path in FreshFiles(r)
    ensures forall mtime, size :: SeenBy(r, path, mtime, size) <==> FreshFiles(r)[path].meta == FileMeta(mtime, size)
    ensures IsMainPath(r, path) <==> FreshFiles(r)[path].isMain
    ensures forall fp :: FingerprintOf(r, path, fp) <==> FreshFiles(r)[path].fingerprint == Some(fp)
  {
    hide StageEntries;
    forall j: nat | LastEntry(r, path, j) ensures j == i {
      OneLastEntry(r, path, i, j);
    }
    forall mtime, size
      ensures SeenBy(r, path, mtime, size) <==> FreshFiles(r)[path].meta == FileMeta(mtime, size)
    {
      assert SeenAs(r.files[i].stat, mtime, size) <==> Meta(r.files[i].stat) == FileMeta(mtime, size);
    }
  }

  /** staging_files is what the request says. */
  lemma StagedFileIs(r: Request, path: Text)
    ensures path in FreshFiles(r) <==> NamesMain(r, path) || exists i: nat :: LastEntry(r, path, i)
    ensures forall mtime, size ::
              SeenBy(r, path, mtime, size) <==>
                path in FreshFiles(r) && FreshFiles(r)[path].meta == FileMeta(mtime, size)
    ensures IsMainPath(r, path) <==> path in FreshFiles(r) && FreshFiles(r)[path].isMain
    ensures forall fp ::
              FingerprintOf(r, path, fp) <==> path in FreshFiles(r) && FreshFiles(r)[path].fingerprint == Some(fp)
  {
    var i := EntriesOf(r, |r.files|, path);
    hide StageEntries;
    if path in StageEntries(r, |r.files|) {
      FreshFile(r, path, i);
    } else {
      assert forall j: nat :: !LastEntry(r, path, j);
    }
  }
}
