/** `ensureDirectory` and `safeDeleteFile`: existence-checked directory creation and
    file deletion that never throws. */
module FileUtils {
  import opened Js
  import opened Fs

  /** The directories after `ensureDirectory(p)`: created only when nothing is there. */
  function EnsureDirectoryEffect(files: Files, dirs: set<string>, p: string): (r: set<string>)
    ensures Exists(files, dirs, p) ==> r == dirs
    ensures !Exists(files, dirs, p) ==> r == dirs + {p}
    ensures Exists(files, r, p)
  {
    if Exists(files, dirs, p) then dirs else dirs + {p}
  }

  /** A second `ensureDirectory` of the same path changes nothing. */
  lemma EnsureDirectoryIdempotent(files: Files, dirs: set<string>, p: string)
    ensures EnsureDirectoryEffect(files, EnsureDirectoryEffect(files, dirs, p), p)
            == EnsureDirectoryEffect(files, dirs, p)
  {
  }

  method EnsureDirectory(fs: FileSystem, p: string)
    requires fs.Valid()
    modifies fs
    ensures fs.Valid() && fs.files == old(fs.files)
    ensures fs.dirs == EnsureDirectoryEffect(old(fs.files), old(fs.dirs), p)
  {
    if !fs.ExistsSync(p) {
      fs.MkdirSync(p);
    }
  }

  /** The files after `safeDeleteFile(p)`: a null or empty path, a path with nothing
      there and a failing unlink all leave the files as they were. */
  function SafeDeleteEffect(files: Files, dirs: set<string>, p: Option<string>, fault: bool): (r: Files)
    requires files.Keys !! dirs
    ensures p.None? || p == Some("") ==> r == files
    ensures p.Some? && p.value !in files ==> r == files
    ensures p.Some? && p.value != "" && p.value in files && !fault ==> r == files - {p.value}
    ensures fault ==> r == files
    ensures r.Keys <= files.Keys && forall q :: q in r ==> r[q] == files[q]
  {
    if p.Some? && p.value != "" && Exists(files, dirs, p.value) then
      match Unlink(files, dirs, p.value, fault)
      case Ok(f) => f
      case Err(_) => files
    else files
  }

  /** Deleting the same path twice has the effect of deleting it once. */
  lemma SafeDeleteIdempotent(files: Files, dirs: set<string>, p: Option<string>, fault1: bool, fault2: bool)
    requires files.Keys !! dirs
    requires !fault1
    ensures var once := SafeDeleteEffect(files, dirs, p, fault1);
            once.Keys !! dirs && SafeDeleteEffect(once, dirs, p, fault2) == once
  {
  }

  /** `safeDeleteFile` never throws: it has no error result. */
  method SafeDeleteFile(fs: FileSystem, p: Option<string>, fault: bool)
    requires fs.Valid()
    modifies fs
    ensures fs.Valid() && fs.dirs == old(fs.dirs)
    ensures fs.files == SafeDeleteEffect(old(fs.files), old(fs.dirs), p, fault)
  {
    if p.Some? && p.value != "" && fs.ExistsSync(p.value) {
      var r := fs.UnlinkSync(p.value, fault);
      // an unlink error is caught and logged
    }
  }
}
